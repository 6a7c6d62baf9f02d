/** The canonical form: it forgets every order it should forget, and building a plan
    again changes nothing, so every accepted plan revalidates. */
module PreflightCanon {
  import opened Text
  import opened SchemaModel
  import opened PreflightPlan

  // ------------------------------------------------------------------- rearranging

  /** One list is a rearrangement of the other. */
  predicate Permuted<T(==)>(a: seq<T>, b: seq<T>) { multiset(a) == multiset(b) }

  /** Indexes, foreign keys and checks in another order; columns stay exact. */
  predicate TableShuffled(a: Table, b: Table) {
    && b == a.(indexes := b.indexes, foreignKeys := b.foreignKeys, checks := b.checks)
    && Permuted(a.indexes, b.indexes) && Permuted(a.foreignKeys, b.foreignKeys) && Permuted(a.checks, b.checks)
  }

  predicate TablesShuffled(a: seq<Table>, b: seq<Table>) {
    |a| == |b| && forall i :: 0 <= i < |a| ==> TableShuffled(a[i], b[i])
  }

  predicate ContextShuffled(a: Option<Context>, b: Option<Context>) {
    if a.None? then b.None?
       else b.Some? && b.value == a.value.(tables := b.value.tables) && Permuted(a.value.tables, b.value.tables)
  }

  /** The same schema in another order of tables, scope names and their parts. */
  ghost predicate SchemaShuffled(s: Schema, t: Schema) {
    ContextShuffled(s.context, t.context) && exists m :: TablesShuffled(s.tables, m) && Permuted(m, t.tables)
  }

  lemma SortBySame<T(!new)>(s: seq<T>, t: seq<T>, key: T -> string)
    requires DistinctBy(s, key) && DistinctBy(t, key) && forall x :: x in s <==> x in t
    ensures SortBy(s, key) == SortBy(t, key)
  {
    SortBySorted(s, key);
    SortBySorted(t, key);
    SameElements(SortBy(s, key), s);
    SameElements(SortBy(t, key), t);
    SortedUnique(SortBy(s, key), SortBy(t, key), key);
  }

  // ------------------------------------------------------------------- one table

  lemma DistinctNames(a: Table, b: Table)
    requires TableShuffled(a, b) && NamesDistinct(a)
    ensures NamesDistinct(b)
  {
    SameElements(a.indexes, b.indexes);
    SameElements(a.foreignKeys, b.foreignKeys);
    SameElements(a.checks, b.checks);
    DistinctPermutation(a.indexes, b.indexes, IndexName);
    DistinctPermutation(a.foreignKeys, b.foreignKeys, ForeignKeyName);
    DistinctPermutation(a.checks, b.checks, CheckName);
    forall i | 0 <= i < |b.indexes| ensures b.indexes[i].name != "" { assert b.indexes[i] in a.indexes; }
    forall i | 0 <= i < |b.foreignKeys| ensures b.foreignKeys[i].name != "" {
      assert b.foreignKeys[i] in a.foreignKeys;
    }
    forall i | 0 <= i < |b.checks| ensures b.checks[i].name != "" { assert b.checks[i] in a.checks; }
    forall i, j | 0 <= i < |b.foreignKeys| && 0 <= j < |b.checks| ensures b.foreignKeys[i].name != b.checks[j].name {
      assert b.foreignKeys[i] in a.foreignKeys && b.checks[j] in a.checks;
    }
  }

  lemma SameCanonicalTable(a: Table, b: Table)
    requires TableShuffled(a, b) && NamesDistinct(a)
    ensures CanonicalTable(a) == CanonicalTable(b)
  {
    SortByForgetsOrder(a.indexes, b.indexes, IndexName);
    SortByForgetsOrder(a.foreignKeys, b.foreignKeys, ForeignKeyName);
    SortByForgetsOrder(a.checks, b.checks, CheckName);
  }

  lemma {:induction false} CanonicalAt(ts: seq<Table>, i: nat)
    requires i < |ts|
    ensures CanonicalTables(ts)[i] == CanonicalTable(ts[i])
  {
    hide CanonicalTable;
    if i < |ts| - 1 { CanonicalAt(ts[..|ts| - 1], i); }
  }

  // ------------------------------------------------------------------ whole schemas

  lemma ShuffledBack(a: seq<Table>, b: seq<Table>)
    requires TablesShuffled(a, b)
    ensures TablesShuffled(b, a)
  {
    forall i | 0 <= i < |a| ensures TableShuffled(b[i], a[i]) { assert TableShuffled(a[i], b[i]); }
  }

  lemma TablewiseSortable(c: Option<Context>, a: seq<Table>, b: seq<Table>)
    requires TablesShuffled(a, b) && Sortable(Schema(c, a))
    ensures Sortable(Schema(c, b))
  {
    hide NamesDistinct, ContextKnown;
    forall i | 0 <= i < |b| ensures TableIdentityValid(b[i], c.value) && NamesDistinct(b[i]) {
      assert TableShuffled(a[i], b[i]) && NamesDistinct(a[i]) && TableIdentityValid(a[i], c.value);
      DistinctNames(a[i], b[i]);
    }
    forall i, j | 0 <= i < j < |b| ensures b[i].identity != b[j].identity {
      assert TableShuffled(a[i], b[i]) && TableShuffled(a[j], b[j]);
    }
  }

  lemma {:induction false} TablewiseCanonical(a: seq<Table>, b: seq<Table>)
    requires TablesShuffled(a, b) && forall i :: 0 <= i < |a| ==> NamesDistinct(a[i])
    ensures CanonicalTables(a) == CanonicalTables(b)
  {
    hide NamesDistinct, CanonicalTable, TableShuffled;
    if a != [] {
      var n := |a| - 1;
      TablewiseCanonical(a[..n], b[..n]);
      SameCanonicalTable(a[n], b[n]);
    }
  }

  /** In a valid schema the table names are as distinct as the identities. */
  lemma NamesAreIdentities(s: Schema)
    requires Sortable(s)
    ensures DistinctBy(s.tables, TableName)
  {
    hide NamesDistinct, ContextKnown, IdentityKnown, SimpleName;
    forall i, j | 0 <= i < j < |s.tables| ensures s.tables[i].name != s.tables[j].name {
      var a, b := s.tables[i].identity, s.tables[j].identity;
      assert TableIdentityValid(s.tables[i], s.context.value) && TableIdentityValid(s.tables[j], s.context.value);
      KnownIdentity(a);
      KnownIdentity(b);
      assert a == Identity(a.catalog, a.schema, a.name, Complete)
             && b == Identity(b.catalog, b.schema, b.name, Complete);
    }
  }

  lemma KnownIdentity(i: Identity)
    ensures IdentityKnown(i) ==> i.state == Complete
  {
  }

  lemma PermutedSortable(c: Option<Context>, a: seq<Table>, b: seq<Table>)
    requires Permuted(a, b) && Sortable(Schema(c, a))
    ensures Sortable(Schema(c, b))
  {
    hide NamesDistinct, ContextKnown, TableIdentityValid;
    SameElements(a, b);
    NamesAreIdentities(Schema(c, a));
    DistinctPermutation(a, b, TableName);
    forall i | 0 <= i < |b| ensures TableIdentityValid(b[i], c.value) && NamesDistinct(b[i]) { assert b[i] in a; }
    forall i, j | 0 <= i < j < |b| ensures b[i].identity != b[j].identity {
      assert TableName(b[i]) != TableName(b[j]);
      IdentityNames(b[i], c.value);
      IdentityNames(b[j], c.value);
    }
  }

  lemma IdentityNames(t: Table, c: Context)
    requires TableIdentityValid(t, c)
    ensures t.identity.name == t.name
  {
  }

  lemma {:induction false} InCanonical(ts: seq<Table>, x: Table)
    ensures x in CanonicalTables(ts) <==> exists i :: 0 <= i < |ts| && x == CanonicalTable(ts[i])
  {
    hide CanonicalTable;
    forall i | 0 <= i < |ts| ensures CanonicalTables(ts)[i] == CanonicalTable(ts[i]) { CanonicalAt(ts, i); }
  }

  lemma CanonicalDistinct(ts: seq<Table>)
    requires DistinctBy(ts, TableName)
    ensures DistinctBy(CanonicalTables(ts), TableName)
  {
    forall i | 0 <= i < |ts| ensures CanonicalTables(ts)[i].name == ts[i].name { CanonicalAt(ts, i); }
    forall i, j | 0 <= i < j < |ts| ensures TableName(CanonicalTables(ts)[i]) != TableName(CanonicalTables(ts)[j]) {
      assert TableName(ts[i]) != TableName(ts[j]);
    }
  }

  lemma PermutedSorted(c: Option<Context>, a: seq<Table>, b: seq<Table>)
    requires Permuted(a, b) && Sortable(Schema(c, a))
    ensures SortBy(CanonicalTables(a), TableName) == SortBy(CanonicalTables(b), TableName)
  {
    hide CanonicalTable, Sortable;
    NamesAreIdentities(Schema(c, a));
    DistinctPermutation(a, b, TableName);
    CanonicalDistinct(a);
    CanonicalDistinct(b);
    SameElements(a, b);
    forall x ensures x in CanonicalTables(a) <==> x in CanonicalTables(b) {
      InCanonical(a, x);
      InCanonical(b, x);
      if x in CanonicalTables(a) { var i :| 0 <= i < |a| && x == CanonicalTable(a[i]); assert a[i] in b; }
      if x in CanonicalTables(b) { var i :| 0 <= i < |b| && x == CanonicalTable(b[i]); assert b[i] in a; }
    }
    SortBySame(CanonicalTables(a), CanonicalTables(b), TableName);
  }

  lemma ContextStaysKnown(a: Option<Context>, b: Option<Context>)
    requires ContextShuffled(a, b) && ContextKnown(a)
    ensures ContextKnown(b) && SortBy(a.value.tables, Self) == SortBy(b.value.tables, Self)
  {
    var x, y := a.value.tables, b.value.tables;
    SameElements(x, y);
    if a.value.scope != "namespace" {
      assert DistinctBy(x, Self);
      DistinctPermutation(x, y, Self);
      SortByForgetsOrder(x, y, Self);
      forall i | 0 <= i < |y| ensures SimpleName(y[i]) { assert y[i] in x; }
      forall i, j | 0 <= i < j < |y| ensures y[i] != y[j] { assert Self(y[i]) != Self(y[j]); }
    } else {
      assert y == [];
    }
  }

  lemma ContextShuffledBack(a: Option<Context>, b: Option<Context>)
    requires ContextShuffled(a, b)
    ensures ContextShuffled(b, a)
  {
  }

  lemma OtherContext(c: Option<Context>, d: Option<Context>, ts: seq<Table>)
    requires ContextShuffled(c, d) && Sortable(Schema(c, ts))
    ensures Sortable(Schema(d, ts)) && Sorted(Schema(c, ts)) == Sorted(Schema(d, ts))
  {
    hide NamesDistinct, ContextKnown;
    ContextStaysKnown(c, d);
    forall i | 0 <= i < |ts| ensures TableIdentityValid(ts[i], d.value) { assert TableIdentityValid(ts[i], c.value); }
  }

  lemma ShuffledCanonical(s: Schema, t: Schema)
    requires SchemaShuffled(s, t) && Sortable(s)
    ensures Sortable(t) && Sorted(s) == Sorted(t)
  {
    hide Sortable, TablesShuffled, ContextShuffled;
    var m :| TablesShuffled(s.tables, m) && Permuted(m, t.tables);
    TablewiseSortable(s.context, s.tables, m);
    PermutedSortable(s.context, m, t.tables);
    AllNamed(s);
    TablewiseCanonical(s.tables, m);
    PermutedSorted(s.context, m, t.tables);
    HasContext(s);
    OtherContext(s.context, t.context, t.tables);
  }

  lemma HasContext(s: Schema)
    requires Sortable(s)
    ensures s.context.Some?
  {
  }

  lemma AllNamed(s: Schema)
    requires Sortable(s)
    ensures forall i :: 0 <= i < |s.tables| ==> NamesDistinct(s.tables[i])
  {
    hide NamesDistinct;
  }

  lemma SchemaShuffledBack(s: Schema, t: Schema)
    requires SchemaShuffled(s, t) && Sortable(t)
    ensures Sortable(s)
  {
    hide Sortable, TablesShuffled, ContextShuffled;
    var m :| TablesShuffled(s.tables, m) && Permuted(m, t.tables);
    ContextShuffledBack(s.context, t.context);
    HasContext(t);
    OtherContext(t.context, s.context, t.tables);
    PermutedSortable(s.context, t.tables, m);
    ShuffledBack(s.tables, m);
    TablewiseSortable(s.context, m, s.tables);
  }

  /** canonicalSchema does not see the order of tables, indexes, foreign keys, checks
      or scope names, neither in its verdict nor in its result. */
  lemma CanonicalForgetsOrder(s: Schema, t: Schema)
    requires SchemaShuffled(s, t)
    ensures CanonicalSchema(s) == CanonicalSchema(t)
  {
    hide Sortable, SchemaShuffled, Sorted;
    if Sortable(s) { ShuffledCanonical(s, t); }
    if Sortable(t) { SchemaShuffledBack(s, t); ShuffledCanonical(s, t); }
  }

  // -------------------------------------------------------------- reference schemas

  ghost predicate SchemasShuffled(a: seq<Schema>, b: seq<Schema>) {
    |a| == |b| && forall i :: 0 <= i < |a| ==> SchemaShuffled(a[i], b[i])
  }

  /** Reference schemas in another order, each in another order inside. */
  ghost predicate ReferencesShuffled(a: seq<Schema>, b: seq<Schema>) {
    exists m :: SchemasShuffled(a, m) && Permuted(m, b)
  }

  lemma {:induction false} SchemawiseCanonical(a: seq<Schema>, b: seq<Schema>)
    requires SchemasShuffled(a, b)
    ensures CanonicalSchemas(a) == CanonicalSchemas(b)
  {
    hide SchemaShuffled, CanonicalSchema;
    if a != [] {
      SchemawiseCanonical(a[..|a| - 1], b[..|b| - 1]);
      CanonicalForgetsOrder(a[|a| - 1], b[|b| - 1]);
    }
  }

  predicate AllSortable(ss: seq<Schema>) { forall i :: 0 <= i < |ss| ==> Sortable(ss[i]) }

  lemma {:induction false} CanonicalSchemasAt(ss: seq<Schema>)
    ensures CanonicalSchemas(ss).Some? <==> AllSortable(ss)
    ensures CanonicalSchemas(ss).Some? ==> |CanonicalSchemas(ss).value| == |ss|
    ensures AllSortable(ss) ==> forall i :: 0 <= i < |ss| ==> CanonicalSchemas(ss).value[i] == Sorted(ss[i])
  {
    hide Sortable, Sorted;
    if ss != [] { CanonicalSchemasAt(ss[..|ss| - 1]); }
  }

  lemma SortedScope(s: Schema)
    requires Sortable(s)
    ensures ScopeName(Sorted(s)) == ScopeName(s) && Sorted(s).context.Some?
            && Sorted(s).context.value.dialect == s.context.value.dialect
  {
    hide NamesDistinct, ContextKnown;
  }

  predicate Dialects(ss: seq<Schema>, dialect: string) {
    forall i :: 0 <= i < |ss| ==> ss[i].context.Some? && ss[i].context.value.dialect == dialect
  }

  /** Another order of reference schemas changes no verdict and not the sorted list. */
  lemma PermutedReferences(a: seq<Schema>, b: seq<Schema>, first: Schema, dialect: string)
    requires Permuted(a, b) && AllSortable(a)
    ensures AllSortable(b)
    ensures var x, y := CanonicalSchemas(a), CanonicalSchemas(b);
            && x.Some? && y.Some? && |x.value| == |y.value|
            && (Dialects(x.value, dialect) <==> Dialects(y.value, dialect))
            && (DistinctBy([first] + x.value, ScopeName)
               ==> DistinctBy([first] + y.value, ScopeName) && SortBy(x.value, ScopeName) == SortBy(y.value, ScopeName))
  {
    hide Sortable, Sorted;
    SameElements(a, b);
    forall i | 0 <= i < |b| ensures Sortable(b[i]) { assert b[i] in a; }
    CanonicalSchemasAt(a);
    CanonicalSchemasAt(b);
    var x, y := CanonicalSchemas(a).value, CanonicalSchemas(b).value;
    forall s ensures s in x <==> s in y {
      if s in x {
        var i :| 0 <= i < |x| && x[i] == s;
        assert a[i] in b;
        var j :| 0 <= j < |b| && b[j] == a[i];
        assert y[j] == s;
      }
      if s in y {
        var i :| 0 <= i < |y| && y[i] == s;
        assert b[i] in a;
        var j :| 0 <= j < |a| && a[j] == b[i];
        assert x[j] == s;
      }
    }
    SameMembersSameDialects(x, y, dialect);
    SameMembersSameDialects(y, x, dialect);
    if DistinctBy([first] + x, ScopeName) { DistinctReferences(a, b, x, y, first); }
  }

  lemma SameMembersSameDialects(x: seq<Schema>, y: seq<Schema>, dialect: string)
    requires forall s :: s in x <==> s in y
    ensures Dialects(x, dialect) ==> Dialects(y, dialect)
  {
    if Dialects(x, dialect) {
      forall i | 0 <= i < |y| ensures y[i].context.Some? && y[i].context.value.dialect == dialect { assert y[i] in x; }
    }
  }

  lemma DistinctReferences(a: seq<Schema>, b: seq<Schema>, x: seq<Schema>, y: seq<Schema>, first: Schema)
    requires Permuted(a, b) && AllSortable(a) && AllSortable(b) && CanonicalSchemas(a) == Some(x)
             && CanonicalSchemas(b) == Some(y)
    requires (forall s :: s in x <==> s in y) && DistinctBy([first] + x, ScopeName)
    ensures DistinctBy([first] + y, ScopeName) && SortBy(x, ScopeName) == SortBy(y, ScopeName)
  {
    hide Sortable, Sorted, ScopeName;
    CanonicalSchemasAt(a);
    CanonicalSchemasAt(b);
    forall i | 0 <= i < |a| ensures ScopeName(x[i]) == ScopeName(a[i]) { SortedScope(a[i]); }
    forall i | 0 <= i < |b| ensures ScopeName(y[i]) == ScopeName(b[i]) { SortedScope(b[i]); }
    DistinctTail(first, x);
    assert DistinctBy(a, ScopeName);
    DistinctPermutation(a, b, ScopeName);
    assert DistinctBy(y, ScopeName);
    forall j | 0 <= j < |y| ensures ScopeName(first) != ScopeName(y[j]) { assert y[j] in x; }
    DistinctCons(first, y);
    SortBySame(x, y, ScopeName);
  }

  lemma DistinctTail(first: Schema, x: seq<Schema>)
    requires DistinctBy([first] + x, ScopeName)
    ensures DistinctBy(x, ScopeName) && forall s :: s in x ==> ScopeName(first) != ScopeName(s)
  {
    hide ScopeName;
    var all := [first] + x;
    forall i, j | 0 <= i < j < |x| ensures ScopeName(x[i]) != ScopeName(x[j]) {
      assert ScopeName(all[i + 1]) != ScopeName(all[j + 1]);
    }
    forall s | s in x ensures ScopeName(first) != ScopeName(s) {
      var i :| 0 <= i < |x| && x[i] == s;
      assert ScopeName(all[0]) != ScopeName(all[i + 1]);
    }
  }

  lemma DistinctCons(first: Schema, y: seq<Schema>)
    requires DistinctBy(y, ScopeName) && forall j :: 0 <= j < |y| ==> ScopeName(first) != ScopeName(y[j])
    ensures DistinctBy([first] + y, ScopeName)
  {
    hide ScopeName;
  }

  // ---------------------------------------------------------------------- plans

  /** The same plan with its schemas in another order; the steps are untouched. */
  ghost predicate PlanShuffled(p: Plan, q: Plan) {
    && q == p.(current := q.current, desired := q.desired, references := q.references)
    && SchemaShuffled(p.current, q.current) && SchemaShuffled(p.desired, q.desired)
       && ReferencesShuffled(p.references, q.references)
  }

  /** The scope checks of buildPreflight over canonical schemas. */
  function Judge(current: Schema, desired: Schema, references: seq<Schema>): Option<(Schema, Schema, seq<Schema>)>
    requires current.context.Some?
  {
    if !SameScope(current.context, desired.context) || !Dialects(references, current.context.value.dialect)
       || !DistinctBy([current] + references, ScopeName) then None
    else Some((current, desired, SortBy(references, ScopeName)))
  }

  /** The part of buildPreflight that looks at the schemas. */
  function Schemas(p: Plan): Option<(Schema, Schema, seq<Schema>)> {
    match (CanonicalSchema(p.current), CanonicalSchema(p.desired), CanonicalSchemas(p.references))
    case (Some(current), Some(desired), Some(references)) => Judge(current, desired, references)
    case _ => None
  }

  function Finish(p: Plan, current: Schema, desired: Schema, references: seq<Schema>): Option<Plan> {
    var cleared := p.(current := current, desired := desired, references := references, id := Blank,
        requirements := [], steps := Unnamed(p.steps));
    var named := Number(cleared.(id := PlanDigest(cleared)), |cleared.steps|);
    if |named.requirements| > 64 then None else Some(named)
  }

  lemma BuildParts(p: Plan)
    ensures Build(p) == if p.steps == [] || |p.steps| > 64 || |p.references| > 64 || !StepsOrdered(p.steps)
            || Schemas(p).None? then None
                        else Finish(p, Schemas(p).value.0, Schemas(p).value.1, Schemas(p).value.2)
  {
    hide Number, CanonicalSchema, CanonicalSchemas, SameScope, StepsOrdered, Unnamed, SortBy;
  }

  lemma SameReferences(a: seq<Schema>, b: seq<Schema>, first: Schema, dialect: string)
    requires ReferencesShuffled(a, b)
    ensures |a| == |b|
    ensures CanonicalSchemas(a).Some? <==> CanonicalSchemas(b).Some?
    ensures CanonicalSchemas(a).Some? ==>
              var x, y := CanonicalSchemas(a).value, CanonicalSchemas(b).value;
              && (Dialects(x, dialect) <==> Dialects(y, dialect))
              && (DistinctBy([first] + x, ScopeName) <==> DistinctBy([first] + y, ScopeName))
              && (DistinctBy([first] + x, ScopeName) ==> SortBy(x, ScopeName) == SortBy(y, ScopeName))
  {
    hide Sortable, Sorted, SchemasShuffled, Dialects, ScopeName;
    var m :| SchemasShuffled(a, m) && Permuted(m, b);
    assert |a| == |m| by { SameLength(a, m); }
    SameElements(m, b);
    SchemawiseCanonical(a, m);
    CanonicalSchemasAt(m);
    CanonicalSchemasAt(b);
    if AllSortable(m) { PermutedReferences(m, b, first, dialect); }
    if AllSortable(b) { PermutedReferences(b, m, first, dialect); }
  }

  lemma SameLength(a: seq<Schema>, m: seq<Schema>)
    requires SchemasShuffled(a, m)
    ensures |a| == |m|
  {
  }

  lemma SameSchemas(p: Plan, q: Plan)
    requires PlanShuffled(p, q)
    ensures Schemas(p) == Schemas(q) && |p.references| == |q.references|
  {
    hide SchemaShuffled, ReferencesShuffled, CanonicalSchema, CanonicalSchemas, Judge;
    CanonicalForgetsOrder(p.current, q.current);
    CanonicalForgetsOrder(p.desired, q.desired);
    var current := CanonicalSchema(p.current);
    SameReferences(p.references, q.references, p.current, "");
    if current.Some? && CanonicalSchema(p.desired).Some? && CanonicalSchemas(p.references).Some? {
      CanonicalHasContext(p.current);
      SameReferences(p.references, q.references, current.value, current.value.context.value.dialect);
      SameJudgement(current.value, CanonicalSchema(p.desired).value, CanonicalSchemas(p.references).value,
          CanonicalSchemas(q.references).value);
    }
  }

  lemma CanonicalHasContext(s: Schema)
    requires CanonicalSchema(s).Some?
    ensures CanonicalSchema(s).value.context.Some?
  {
    hide Sortable;
    HasContext(s);
  }

  lemma SameJudgement(current: Schema, desired: Schema, x: seq<Schema>, y: seq<Schema>)
    requires current.context.Some?
    requires Dialects(x, current.context.value.dialect) <==> Dialects(y, current.context.value.dialect)
    requires DistinctBy([current] + x, ScopeName) <==> DistinctBy([current] + y, ScopeName)
    requires DistinctBy([current] + x, ScopeName) ==> SortBy(x, ScopeName) == SortBy(y, ScopeName)
    ensures Judge(current, desired, x) == Judge(current, desired, y)
  {
    hide SameScope, Dialects, ScopeName;
  }

  /** Permuting tables, indexes, foreign keys, checks and reference schemas changes
      neither the verdict nor any plan, step or requirement ID: the built plans are equal. */
  lemma BuildForgetsOrder(p: Plan, q: Plan)
    requires PlanShuffled(p, q)
    ensures Build(p) == Build(q)
  {
    hide SchemaShuffled, ReferencesShuffled, Schemas, Number, StepsOrdered, Unnamed, Build;
    BuildParts(p);
    BuildParts(q);
    SameSchemas(p, q);
  }

  // ------------------------------------------------------------------ idempotence

  lemma CanonicalTablesShuffled(ts: seq<Table>)
    ensures TablesShuffled(ts, CanonicalTables(ts))
  {
    hide CanonicalTable, TableShuffled;
    forall i | 0 <= i < |ts| ensures TableShuffled(ts[i], CanonicalTables(ts)[i]) {
      CanonicalAt(ts, i);
      CanonicalTableShuffled(ts[i]);
    }
  }

  lemma SortedIsShuffled(s: Schema)
    requires Sortable(s)
    ensures SchemaShuffled(s, Sorted(s))
  {
    hide Sortable, CanonicalTable, TablesShuffled, CanonicalTables;
    HasContext(s);
    CanonicalTablesShuffled(s.tables);
    assert TablesShuffled(s.tables, CanonicalTables(s.tables)) && Permuted(CanonicalTables(s.tables), Sorted(s).tables);
  }

  lemma CanonicalTableShuffled(t: Table)
    ensures TableShuffled(t, CanonicalTable(t))
  {
  }

  /** Canonical schemas are fixed points. */
  lemma CanonicalIsFixed(s: Schema)
    requires CanonicalSchema(s).Some?
    ensures CanonicalSchema(CanonicalSchema(s).value) == CanonicalSchema(s)
  {
    hide Sortable, Sorted, SchemaShuffled;
    HasContext(s);
    SortedIsShuffled(s);
    CanonicalForgetsOrder(s, Sorted(s));
  }

  lemma {:induction false} CanonicalListFixed(ss: seq<Schema>)
    requires forall i :: 0 <= i < |ss| ==> CanonicalSchema(ss[i]) == Some(ss[i])
    ensures CanonicalSchemas(ss) == Some(ss)
  {
    hide CanonicalSchema;
    if ss != [] { CanonicalListFixed(ss[..|ss| - 1]); assert ss == ss[..|ss| - 1] + [ss[|ss| - 1]]; }
  }

  lemma SchemasFixed(p: Plan, q: Plan)
    requires Schemas(p).Some? && (q.current, q.desired, q.references) == Schemas(p).value
    ensures Schemas(q) == Schemas(p) && |q.references| == |p.references|
  {
    hide CanonicalSchema, CanonicalSchemas, Sorted, Sortable, SameScope, Dialects, ScopeName;
    var refs := CanonicalSchemas(p.references).value;
    CanonicalHasContext(p.current);
    CanonicalIsFixed(p.current);
    CanonicalIsFixed(p.desired);
    CanonicalSchemasAt(p.references);
    SameElements(refs, q.references);
    ListStaysFixed(p.references, q.references);
    SameMembersSameDialects(refs, q.references, q.current.context.value.dialect);
    SortedReferencesFixed(q.current, refs, q.references);
  }

  lemma ListStaysFixed(a: seq<Schema>, b: seq<Schema>)
    requires CanonicalSchemas(a).Some? && b == SortBy(CanonicalSchemas(a).value, ScopeName)
    ensures CanonicalSchemas(b) == Some(b)
  {
    hide Sorted, Sortable, ScopeName, CanonicalSchemas;
    var refs := CanonicalSchemas(a).value;
    CanonicalSchemasAt(a);
    SameElements(refs, b);
    forall i | 0 <= i < |b| ensures CanonicalSchema(b[i]) == Some(b[i]) {
      assert b[i] in refs;
      var j :| 0 <= j < |refs| && refs[j] == b[i];
      CanonicalIsFixed(a[j]);
    }
    CanonicalListFixed(b);
  }

  lemma SortedReferencesFixed(current: Schema, refs: seq<Schema>, sorted: seq<Schema>)
    requires DistinctBy([current] + refs, ScopeName) && sorted == SortBy(refs, ScopeName)
    ensures DistinctBy([current] + sorted, ScopeName) && SortBy(sorted, ScopeName) == sorted
  {
    hide ScopeName;
    SameElements(refs, sorted);
    DistinctTail(current, refs);
    SortByForgetsOrder(refs, sorted, ScopeName);
    forall j | 0 <= j < |sorted| ensures ScopeName(current) != ScopeName(sorted[j]) { assert sorted[j] in refs; }
    DistinctCons(current, sorted);
  }

  lemma {:induction false} NumberKeeps(p: Plan, n: nat)
    requires n <= |p.steps|
    ensures var q := Number(p, n);
            && q == p.(steps := q.steps, requirements := q.requirements)
            && Unnamed(q.steps) == Unnamed(p.steps)
  {
    hide RequirementsFor, Identified;
    if n > 0 {
      NumberKeeps(p, n - 1);
      var q := Number(p, n - 1);
      RenameOne(q.steps, n - 1, StepDigest(q.id, n - 1, q.steps[n - 1]));
    }
  }

  lemma {:induction false} UnnamedAt(steps: seq<Step>, i: nat)
    requires i < |steps|
    ensures Unnamed(steps)[i] == steps[i].(id := Blank)
  {
    if i < |steps| - 1 { UnnamedAt(steps[..|steps| - 1], i); }
  }

  lemma RenameOne(steps: seq<Step>, i: nat, id: Digest)
    requires i < |steps|
    ensures Unnamed(steps[i := steps[i].(id := id)]) == Unnamed(steps)
  {
    var renamed := steps[i := steps[i].(id := id)];
    forall k | 0 <= k < |steps| ensures Unnamed(renamed)[k] == Unnamed(steps)[k] {
      UnnamedAt(renamed, k);
      UnnamedAt(steps, k);
    }
  }

  lemma UnnamedTwice(steps: seq<Step>)
    ensures Unnamed(Unnamed(steps)) == Unnamed(steps)
  {
    forall k | 0 <= k < |steps| ensures Unnamed(Unnamed(steps))[k] == Unnamed(steps)[k] {
      UnnamedAt(Unnamed(steps), k);
      UnnamedAt(steps, k);
    }
  }

  /** Whether steps are ordered is decided without their IDs. */
  lemma OrderIgnoresIds(a: seq<Step>, b: seq<Step>)
    requires Unnamed(a) == Unnamed(b)
    ensures StepsOrdered(a) <==> StepsOrdered(b)
  {
    forall i | 0 <= i < |a| ensures a[i].(id := Blank) == b[i].(id := Blank) { UnnamedAt(a, i); UnnamedAt(b, i); }
    forall i | 0 <= i <= |a| ensures LastRank(a, i) == LastRank(b, i) { RankIgnoresIds(a, b, i); }
  }

  lemma {:induction false} RankIgnoresIds(a: seq<Step>, b: seq<Step>, n: nat)
    requires n <= |a| == |b| && forall i :: 0 <= i < |a| ==> a[i].(id := Blank) == b[i].(id := Blank)
    ensures LastRank(a, n) == LastRank(b, n)
  {
    if n > 0 {
      RankIgnoresIds(a, b, n - 1);
      assert a[n - 1].(id := Blank).phase == b[n - 1].(id := Blank).phase;
    }
  }

  /** Building is idempotent, so every accepted plan revalidates. */
  lemma BuildIsIdempotent(p: Plan)
    requires Build(p).Some?
    ensures Build(Build(p).value) == Build(p)
  {
    hide Schemas, Number, StepsOrdered, Unnamed, Build;
    var q := Build(p).value;
    BuildParts(p);
    BuildParts(q);
    FinishKeeps(p, Schemas(p).value.0, Schemas(p).value.1, Schemas(p).value.2);
    SchemasFixed(p, q);
    OrderIgnoresIds(q.steps, p.steps);
  }

  lemma FinishKeeps(p: Plan, current: Schema, desired: Schema, references: seq<Schema>)
    requires Finish(p, current, desired, references).Some?
    ensures var q := Finish(p, current, desired, references).value;
            && (q.current, q.desired, q.references) == (current, desired, references)
            && Unnamed(q.steps) == Unnamed(p.steps) && |q.steps| == |p.steps|
            && Finish(q, current, desired, references) == Some(q)
  {
    hide Number, Unnamed;
    var cleared := p.(current := current, desired := desired, references := references, id := Blank,
        requirements := [], steps := Unnamed(p.steps));
    NumberKeeps(cleared.(id := PlanDigest(cleared)), |cleared.steps|);
    UnnamedTwice(p.steps);
  }
}
