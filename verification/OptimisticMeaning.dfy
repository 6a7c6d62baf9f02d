/** Which versioned updates are accepted, from the fields of the query, the settings and
    the declared table, and every column an accepted update leaves behind. */
module OptimisticMeaning {
  import opened Text
  import opened Optimistic

  // --------------------------------------------------------------- columns, values

  /** The first column of that name. */
  predicate FirstColumn(columns: seq<Column>, name: string, c: Column) {
    exists k :: 0 <= k < |columns| && columns[k] == c && c.name == name
                && forall j :: 0 <= j < k ==> columns[j].name != name
  }

  predicate FirstTable(tables: seq<Table>, name: string, t: Table) {
    exists k :: 0 <= k < |tables| && tables[k] == t && t.name == name
                && forall j :: 0 <= j < k ==> tables[j].name != name
  }

  lemma FirstInTail(columns: seq<Column>, name: string, c: Column)
    requires columns != [] && columns[0].name != name
    ensures FirstColumn(columns, name, c) <==> FirstColumn(columns[1..], name, c)
  {
    if FirstColumn(columns, name, c) {
      var k :| 0 <= k < |columns| && columns[k] == c && c.name == name
               && forall j :: 0 <= j < k ==> columns[j].name != name;
      assert columns[1..][k - 1] == c && forall j :: 0 <= j < k - 1 ==> columns[1..][j].name != name;
    }
    if FirstColumn(columns[1..], name, c) {
      var k :| 0 <= k < |columns| - 1 && columns[1..][k] == c && c.name == name
               && forall j :: 0 <= j < k ==> columns[1..][j].name != name;
      forall j | 0 <= j < k + 1 ensures columns[j].name != name {
        if j > 0 { assert columns[j] == columns[1..][j - 1]; }
      }
      assert columns[k + 1] == c;
    }
  }

  lemma {:induction false} FindColumnMeans(columns: seq<Column>, name: string, c: Column)
    ensures FindColumn(columns, name) == Some(c) <==> FirstColumn(columns, name, c)
  {
    if columns != [] {
      if columns[0].name == name {
        assert FirstColumn(columns, name, columns[0]);
      } else {
        FindColumnMeans(columns[1..], name, c);
        FirstInTail(columns, name, c);
      }
    }
  }

  lemma {:induction false} FindTableMeans(tables: seq<Table>, name: string, t: Table)
    ensures FindTable(tables, name) == Some(t) <==> FirstTable(tables, name, t)
  {
    if tables != [] {
      FindTableMeans(tables[1..], name, t);
      if tables[0].name != name {
        if FirstTable(tables, name, t) {
          var k :| 0 <= k < |tables| && tables[k] == t && t.name == name
                   && forall j :: 0 <= j < k ==> tables[j].name != name;
          assert tables[1..][k - 1] == t && forall j :: 0 <= j < k - 1 ==> tables[1..][j].name != name;
        }
        if FirstTable(tables[1..], name, t) {
          var k :| 0 <= k < |tables| - 1 && tables[1..][k] == t && t.name == name
                   && forall j :: 0 <= j < k ==> tables[1..][j].name != name;
          forall j | 0 <= j < k + 1 ensures tables[j].name != name {
            if j > 0 { assert tables[j] == tables[1..][j - 1]; }
          }
          assert tables[k + 1] == t;
        }
      } else {
        assert tables[0].name == name;
      }
    }
  }

  /** A signed integer column of 16, 32 or 64 bits under the dialect's own type name. */
  predicate IntegerColumn(c: Column, dialect: string) {
    && ScopeIdent(c.name) && !c.unsigned
    && (|| (dialect == "mysql" && (c.dbType, c.bits) in {("SMALLINT", 16), ("INT", 32), ("BIGINT", 64)})
        || (dialect == "postgres" && (c.dbType, c.bits) in {("smallint", 16), ("integer", 32), ("bigint", 64)}))
  }

  /** The value is an integer of the column's width. */
  predicate Fits(v: Value, bits: int) {
    && v.Integer? && v.n <= 0x7fff_ffff_ffff_ffff
    && (bits == 16 ==> -0x8000 <= v.n <= 0x7fff)
    && (bits == 32 ==> -0x8000_0000 <= v.n <= 0x7fff_ffff)
  }

  lemma Powers()
    ensures TwoTo(15) == 0x8000 && TwoTo(31) == 0x8000_0000
  {
    assert TwoTo(8) == 256;
    assert TwoTo(16) == 0x1_0000;
    assert TwoTo(24) == 0x100_0000;
  }

  lemma FitsMeans(v: Value, bits: int)
    requires bits == 16 || bits == 32 || bits == 64
    ensures ScopeInteger(v, bits).Some? <==> Fits(v, bits)
    ensures Fits(v, bits) ==> ScopeInteger(v, bits) == Some(v.n)
  {
    Powers();
  }

  lemma ColumnMeans(kind: string, c: Column, dialect: string)
    ensures ValidColumn(kind, c, dialect) <==> IntegerColumn(c, dialect) && !(kind == "primary" && c.nullable)
    ensures IntegerColumn(c, dialect) ==> c.bits == 16 || c.bits == 32 || c.bits == 64
  {
  }

  lemma SingleMeans(kind: string, c: Column, dialect: string)
    requires kind == "primary" || kind == "unique"
    ensures ValidKey(Single(kind, c), dialect) <==> ValidColumn(kind, c, dialect)
  {
    hide ValidColumn;
    assert Single(kind, c).columns[0] == c;
  }

  // -------------------------------------------------------------------- references

  lemma {:induction false} CutLastMeans(s: string)
    ensures var (q, c) := CutLast(s);
            && '.' !in c && (if '.' in s then s == q + "." + c else q == "" && c == s)
  {
    if s != "" {
      CutLastMeans(s[1..]);
      if '.' in s[1..] {
        var (q, c) := CutLast(s[1..]);
        assert s == [s[0]] + s[1..];
        assert [s[0]] + (q + "." + c) == ([s[0]] + q) + "." + c;
      } else {
        assert s == [s[0]] + s[1..];
      }
    }
  }

  /** A reference names column c of the target: plainly, or behind the target's own name. */
  predicate Refers(t: Target, reference: string, c: string) {
    && ScopeColumn(reference) && '.' !in c && (exists d :: d in t.schema.columns && d.name == c)
    && (reference == c || reference == (if t.alias != "" then t.alias else t.table) + "." + c)
  }

  lemma DotsCut(q: string, c: string)
    requires '.' !in c
    ensures CutLast(q + "." + c) == (q, c)
  {
    var s := q + "." + c;
    CutLastMeans(s);
    assert s[|q|] == '.';
    var (a, b) := CutLast(s);
    assert s == a + "." + b && s[|a|] == '.';
    forall k | |a| < k < |s| ensures s[k] != '.' { assert s[k] == b[k - |a| - 1]; }
    forall k | |q| < k < |s| ensures s[k] != '.' { assert s[k] == c[k - |q| - 1]; }
    assert a == s[..|a|] && q == s[..|q|] && b == s[|a| + 1..] && c == s[|q| + 1..];
  }

  lemma PlainCut(c: string)
    requires '.' !in c
    ensures CutLast(c) == ("", c)
  {
    CutLastMeans(c);
  }

  lemma NoEmptyQualifier(c: string)
    ensures !ScopeColumn("." + c)
  {
    var s := "." + c;
    assert s[1..] == c;
    assert Parts(s) == [""] + Parts(c);
    assert "" in Parts(s);
  }

  lemma ResolveMeans(t: Target, reference: string, c: string)
    ensures Resolve(t, reference) == Some(c) <==> Refers(t, reference, c)
  {
    hide ScopeColumn, CutLast;
    var name := if t.alias != "" then t.alias else t.table;
    var (q, col) := CutLast(reference);
    CutLastMeans(reference);
    NoEmptyQualifier(col);
    if '.' !in c { DotsCut(name, c); PlainCut(c); }
    if Resolve(t, reference) == Some(c) {
      assert q == "" ==> reference == c || reference == "." + c;
      assert FindColumn(t.schema.columns, c).Some?;
    }
  }

  // ---------------------------------------------------------------------- the tree

  /** The leaves of the condition, left to right. */
  function Leaves(n: Node): seq<Node> { if Conjunction(n) then LeavesOf(n.children) else [n] }

  function LeavesOf(ns: seq<Node>): seq<Node> { if ns == [] then [] else Leaves(ns[0]) + LeavesOf(ns[1..]) }

  /** Every node is generated and transparent, and no conjunction is empty. */
  predicate Transparent(n: Node) {
    && n.Node? && n.correspondence == "generated" && n.opaqueReason == ""
    && (n.kind == "and" || n.kind == "group" ==>
          n.children != [] && forall i :: 0 <= i < |n.children| ==> Transparent(n.children[i]))
  }

  /** Leaf n is an equality of column c with one detached value. */
  predicate PinsColumn(n: Node, t: Target, c: string) {
    && n.Node? && n.kind == "comparison" && n.operator == "=" && |n.values| == 1
    && n.values[0].isolation == "detached" && Refers(t, n.column, c)
  }

  function ColumnOf(n: Node): string { if n.Node? then CutLast(n.column).1 else "" }

  function ValueOf(n: Node): Value { if n.Node? && n.values != [] then n.values[0].data else Null }

  /** The equalities ls add to those found so far: each pins its own column, none the
      version, none a column pinned before. */
  predicate Fresh(ls: seq<Node>, t: Target, version: string, equals: Row) {
    && (forall i :: 0 <= i < |ls| ==>
          PinsColumn(ls[i], t, ColumnOf(ls[i])) && ColumnOf(ls[i]) != version && ColumnOf(ls[i]) !in equals)
    && (forall i, j :: 0 <= i < j < |ls| ==> ColumnOf(ls[i]) != ColumnOf(ls[j]))
  }

  ghost predicate Adds(ls: seq<Node>, equals: Row, all: Row) {
    && (forall c :: c in all <==> c in equals || exists i :: 0 <= i < |ls| && ColumnOf(ls[i]) == c)
    && (forall i :: 0 <= i < |ls| && ColumnOf(ls[i]) in all ==> all[ColumnOf(ls[i])] == ValueOf(ls[i]))
    && (forall c :: c in equals && c in all ==> all[c] == equals[c])
  }

  /** The leaves one after another. */
  function Fold(ls: seq<Node>, t: Target, version: string, equals: Row): Option<Row> {
    if ls == [] then Some(equals)
    else if ls[0].Absent? then None
    else
      var r := Pin(ls[0], t, version, equals);
      if r.None? then None else Fold(ls[1..], t, version, r.value)
  }

  lemma {:induction false} FoldJoined(a: seq<Node>, b: seq<Node>, t: Target, version: string, equals: Row)
    ensures Fold(a + b, t, version, equals) ==
            if Fold(a, t, version, equals).None? then None
            else Fold(b, t, version, Fold(a, t, version, equals).value)
  {
    hide Pin;
    if a == [] {
      assert a + b == b;
    } else {
      assert (a + b)[1..] == a[1..] + b;
      if !a[0].Absent? && Pin(a[0], t, version, equals).Some? {
        FoldJoined(a[1..], b, t, version, Pin(a[0], t, version, equals).value);
      }
    }
  }

  lemma {:induction false} WalkIsFold(n: Node, t: Target, version: string, equals: Row)
    ensures Walk(n, t, version, equals) == if Transparent(n) then Fold(Leaves(n), t, version, equals) else None
    decreases n, 0
  {
    hide Pin;
    if Trusted(n) {
      if Conjunction(n) {
        if n.children != [] { WalksAreFold(n.children, t, version, equals, n); }
      } else {
        assert Leaves(n) == [n];
      }
    }
  }

  lemma {:induction false} WalksAreFold(ns: seq<Node>, t: Target, version: string, equals: Row, parent: Node)
    requires parent.Node? && |ns| <= |parent.children| && ns == parent.children[|parent.children| - |ns|..]
    ensures WalkAll(ns, t, version, equals) ==
            if forall i :: 0 <= i < |ns| ==> Transparent(ns[i]) then Fold(LeavesOf(ns), t, version, equals) else None
    decreases parent, 0, |ns|
  {
    hide Pin, Transparent, Walk;
    if ns != [] {
      assert ns[0] in parent.children;
      WalkIsFold(ns[0], t, version, equals);
      FoldJoined(Leaves(ns[0]), LeavesOf(ns[1..]), t, version, equals);
      var r := Walk(ns[0], t, version, equals);
      if r.Some? { WalksAreFold(ns[1..], t, version, r.value, parent); }
      assert (forall i :: 0 <= i < |ns| ==> Transparent(ns[i])) <==>
             Transparent(ns[0]) && forall i :: 0 <= i < |ns[1..]| ==> Transparent(ns[1..][i]) by {
        forall i | 0 < i < |ns| ensures ns[i] == ns[1..][i - 1] {}
      }
    }
  }

  lemma PinMeansColumn(n: Node, t: Target, version: string, equals: Row)
    ensures var c := ColumnOf(n);
            n.Node? && Pin(n, t, version, equals).Some? <==>
              PinsColumn(n, t, c) && c != version && c !in equals
    ensures n.Node? && Pin(n, t, version, equals).Some? ==>
              Pin(n, t, version, equals).value == equals[ColumnOf(n) := ValueOf(n)]
  {
    hide ScopeColumn, CutLast, Refers;
    if n.Node? {
      ResolveMeans(t, n.column, ColumnOf(n));
      assert Resolve(t, n.column).Some? ==> Resolve(t, n.column).value == ColumnOf(n);
    }
  }

  /** The leaves are accepted exactly when each pins a column of its own, and the map then
      holds those columns with their values beside what it held. */
  lemma {:induction false} FoldMeans(ls: seq<Node>, t: Target, version: string, equals: Row)
    ensures Fold(ls, t, version, equals).Some? <==> Fresh(ls, t, version, equals)
    ensures Fold(ls, t, version, equals).Some? ==> Adds(ls, equals, Fold(ls, t, version, equals).value)
  {
    hide Pin, PinsColumn, ColumnOf, ValueOf;
    if ls != [] {
      PinMeansColumn(ls[0], t, version, equals);
      if !ls[0].Absent? && Pin(ls[0], t, version, equals).Some? {
        var next := equals[ColumnOf(ls[0]) := ValueOf(ls[0])];
        FoldMeans(ls[1..], t, version, next);
        FreshNext(ls, t, version, equals);
        if Fold(ls, t, version, equals).Some? {
          AddsNext(ls, equals, Fold(ls, t, version, equals).value);
        }
      }
    }
  }

  lemma FreshNext(ls: seq<Node>, t: Target, version: string, equals: Row)
    requires ls != [] && PinsColumn(ls[0], t, ColumnOf(ls[0])) && ColumnOf(ls[0]) != version
             && ColumnOf(ls[0]) !in equals
    ensures Fresh(ls, t, version, equals) <==> Fresh(ls[1..], t, version, equals[ColumnOf(ls[0]) := ValueOf(ls[0])])
  {
    hide PinsColumn, ColumnOf, ValueOf;
    var rest := ls[1..];
    assert forall i :: 0 <= i < |rest| ==> rest[i] == ls[i + 1];
    assert forall i :: 0 < i < |ls| ==> ls[i] == rest[i - 1];
  }

  lemma AddsNext(ls: seq<Node>, equals: Row, all: Row)
    requires ls != [] && ColumnOf(ls[0]) !in equals
    requires forall i :: 0 < i < |ls| ==> ColumnOf(ls[i]) != ColumnOf(ls[0])
    requires Adds(ls[1..], equals[ColumnOf(ls[0]) := ValueOf(ls[0])], all)
    ensures Adds(ls, equals, all)
  {
    hide ColumnOf, ValueOf;
    var rest := ls[1..];
    assert forall i :: 0 <= i < |rest| ==> rest[i] == ls[i + 1];
    assert forall i :: 0 < i < |ls| ==> ls[i] == rest[i - 1];
  }

  /** The condition is accepted exactly when it is transparent and its leaves are fresh
      equalities; the equalities found are those of the leaves. */
  lemma WalkExactly(n: Node, t: Target, version: string)
    ensures Walk(n, t, version, map[]).Some? <==> Transparent(n) && Fresh(Leaves(n), t, version, map[])
    ensures Walk(n, t, version, map[]).Some? ==> Adds(Leaves(n), map[], Walk(n, t, version, map[]).value)
  {
    hide Walk, Transparent, Leaves, Fresh, Fold, Adds;
    WalkIsFold(n, t, version, map[]);
    FoldMeans(Leaves(n), t, version, map[]);
  }

  // -------------------------------------------------------------------- acceptance

  /** The query asks for nothing but a versioned update of one plain table, one row. */
  predicate PlainUpdate(q: Request, s: Settings) {
    && !q.invalid && (q.expectedRows == None || q.expectedRows == Some(1)) && q.version.expected >= 0 && !q.zeroError
    && s.strict && q.assignments == 0 && q.joins == 0 && !q.having && q.unverified == 0 && q.alias == ""
    && ScopeIdent(q.version.column)
  }

  /** t is the schema's table of that name, under the database and dialect of the settings,
      and its policy names only columns of t. */
  predicate Declared(q: Request, s: Settings, t: Table) {
    && s.schema.Some? && s.database != "" && s.database == s.schema.value.database
    && s.dialect != "" && s.dialect == s.schema.value.dialect
    && ScopePath(q.table) && FirstTable(s.schema.value.tables, q.table, t) && t.plain
    && (s.policies(q.table).table == "" || s.policies(q.table).table == t.name)
    && forall name :: name in s.policies(q.table).named ==> exists c :: c in t.columns && c.name == name
  }

  /** tc is the tenant column, fit for the application's tenant. */
  predicate TenantIs(q: Request, s: Settings, t: Table, tc: Column) {
    && s.policies(q.table).tenantColumn != "" && FirstColumn(t.columns, s.policies(q.table).tenantColumn, tc)
    && !tc.nullable && IntegerColumn(tc, s.dialect) && s.tenant.Some? && Fits(s.tenant.value, tc.bits)
  }

  /** vc is the version column, with room for the next version. */
  predicate VersionIs(q: Request, s: Settings, t: Table, tc: Column, vc: Column) {
    && FirstColumn(t.columns, q.version.column, vc) && !vc.nullable && IntegerColumn(vc, s.dialect)
    && vc.name != tc.name && Fits(Integer(q.version.expected + 1), vc.bits)
  }

  /** A leaf of the condition pins that column to that value. */
  predicate Pinned(q: Request, column: string, v: Value) {
    exists i :: 0 <= i < |Leaves(q.condition)| && ColumnOf(Leaves(q.condition)[i]) == column
                && ValueOf(Leaves(q.condition)[i]) == v
  }

  predicate PinnedInWidth(q: Request, c: Column) {
    exists i :: 0 <= i < |Leaves(q.condition)| && ColumnOf(Leaves(q.condition)[i]) == c.name
                && Fits(ValueOf(Leaves(q.condition)[i]), c.bits)
  }

  /** Key p is the one primary key, usable and pinned column by column. */
  predicate KeyIs(q: Request, s: Settings, t: Table, p: int) {
    && 0 <= p < |t.keys| && t.keys[p].kind == "primary"
    && (forall i :: 0 <= i < |t.keys| && t.keys[i].kind == "primary" ==> i == p)
    && var k := t.keys[p];
    && k.allRows && k.valid && k.notDeferrable && !k.partial && !k.expression && k.columns != []
    && (forall i :: 0 <= i < |k.columns| ==>
          && IntegerColumn(k.columns[i], s.dialect) && !k.columns[i].nullable
          && FirstColumn(t.columns, k.columns[i].name, k.columns[i]) && k.columns[i].name != q.version.column
          && PinnedInWidth(q, k.columns[i]))
    && (forall i, j :: 0 <= i < j < |k.columns| ==> k.columns[i].name != k.columns[j].name)
  }

  /** The caller assigns neither the tenant, nor the version, nor a key column. */
  predicate SparesProtected(q: Request, t: Table, tc: Column, p: int) {
    && tc.name !in q.row && q.version.column !in q.row
    && (0 <= p < |t.keys| ==>
          forall i :: 0 <= i < |t.keys[p].columns| ==> t.keys[p].columns[i].name !in q.row)
  }

  lemma TargetMeans(q: Request, s: Settings, t: Table)
    requires q.alias == ""
    ensures TenantTarget(s, q.table, q.alias) == Some(Target(q.table, "", t, s.policies(q.table))) <==>
              Declared(q, s, t) && TenantUsable(t.columns, s.policies(q.table), s)
    ensures TenantTarget(s, q.table, q.alias).Some? ==>
              exists u: Table :: TenantTarget(s, q.table, q.alias) == Some(Target(q.table, "", u, s.policies(q.table)))
  {
    hide ScopePath, FindTable, FirstTable, FindColumn, TenantUsable;
    if s.schema.Some? {
      FindTableMeans(s.schema.value.tables, q.table, t);
      NamedMeans(t.columns, s.policies(q.table).named);
    }
  }

  lemma NamedMeans(columns: seq<Column>, named: seq<string>)
    ensures (forall name :: name in named ==> FindColumn(columns, name).Some?) <==>
            (forall name :: name in named ==> exists c :: c in columns && c.name == name)
  {
  }

  lemma TenantMeans(q: Request, s: Settings, t: Table, tc: Column)
    requires s.policies(q.table).tenantColumn != ""
    ensures (TenantUsable(t.columns, s.policies(q.table), s)
             && FindColumn(t.columns, s.policies(q.table).tenantColumn) == Some(tc)) <==> TenantIs(q, s, t, tc)
  {
    hide ScopeInteger, ValidColumn, ValidKey, IntegerColumn, Fits, FirstColumn, FindColumn;
    FindColumnMeans(t.columns, s.policies(q.table).tenantColumn, tc);
    SingleMeans("unique", tc, s.dialect);
    ColumnMeans("unique", tc, s.dialect);
    if IntegerColumn(tc, s.dialect) && s.tenant.Some? { FitsMeans(s.tenant.value, tc.bits); }
  }

  lemma VersionMeans(q: Request, s: Settings, t: Table, tc: Column, vc: Column)
    requires TenantIs(q, s, t, tc) && q.version.expected >= 0
    ensures var g := Target(q.table, "", t, s.policies(q.table));
            VersionUsable(q, g, s.dialect) && FindColumn(t.columns, q.version.column) == Some(vc) <==>
              VersionIs(q, s, t, tc, vc)
  {
    hide ScopeInteger, ValidColumn, ValidKey, IntegerColumn, FindColumn;
    FindColumnMeans(t.columns, q.version.column, vc);
    SingleMeans("primary", vc, s.dialect);
    ColumnMeans("primary", vc, s.dialect);
    if IntegerColumn(vc, s.dialect) && q.version.expected < MAX_INT64 {
      FitsMeans(Integer(q.version.expected + 1), vc.bits);
    }
  }

  lemma GotMeans(q: Request, equals: Row, column: string, v: Value)
    requires Adds(Leaves(q.condition), map[], equals)
    ensures column in equals && equals[column] == v <==> Pinned(q, column, v)
  {
    hide Leaves, ColumnOf, ValueOf;
  }

  lemma NullIsNoInteger(bits: int)
    requires bits >= 1
    ensures ScopeInteger(Null, bits).None?
  {
  }

  lemma GotInWidth(q: Request, equals: Row, c: Column)
    requires Adds(Leaves(q.condition), map[], equals) && (c.bits == 16 || c.bits == 32 || c.bits == 64)
    ensures ScopeInteger(Got(equals, c.name), c.bits).Some? <==> PinnedInWidth(q, c)
  {
    hide Leaves, ColumnOf, ValueOf, ScopeInteger, Fits;
    FitsMeans(Got(equals, c.name), c.bits);
    NullIsNoInteger(c.bits);
  }

  lemma KeyMeans(q: Request, s: Settings, t: Table, p: int, equals: Row)
    requires Adds(Leaves(q.condition), map[], equals) && OnlyPrimary(t.keys, p)
    ensures KeyPinned(Target(q.table, "", t, s.policies(q.table)), t.keys[p], s.dialect, q.version.column, equals) <==>
              KeyIs(q, s, t, p)
  {
    hide Leaves, Adds, PinnedInWidth, IntegerColumn, FirstColumn, FindColumn, ValidColumn, ScopeInteger;
    var k := t.keys[p];
    forall i | 0 <= i < |k.columns|
      ensures ValidColumn(k.kind, k.columns[i], s.dialect) <==>
                IntegerColumn(k.columns[i], s.dialect) && !k.columns[i].nullable
      ensures FindColumn(t.columns, k.columns[i].name) == Some(k.columns[i]) <==>
                FirstColumn(t.columns, k.columns[i].name, k.columns[i])
      ensures IntegerColumn(k.columns[i], s.dialect) ==>
                k.columns[i].bits >= 1
                && (ScopeInteger(Got(equals, k.columns[i].name), k.columns[i].bits).Some? <==>
                    PinnedInWidth(q, k.columns[i])) {
      ColumnMeans(k.kind, k.columns[i], s.dialect);
      FindColumnMeans(t.columns, k.columns[i].name, k.columns[i]);
      if IntegerColumn(k.columns[i], s.dialect) { GotInWidth(q, equals, k.columns[i]); }
    }
  }

  lemma SparesMeans(q: Request, s: Settings, t: Table, tc: Column, p: int)
    requires s.policies(q.table).tenantColumn == tc.name && 0 <= p < |t.keys|
    ensures q.row.Keys !! Protected(Target(q.table, "", t, s.policies(q.table)), t.keys[p], q.version.column) <==>
              SparesProtected(q, t, tc, p)
  {
    var names := Names(t.keys[p].columns);
    assert forall i :: 0 <= i < |t.keys[p].columns| ==> t.keys[p].columns[i].name in names;
  }

  lemma FitsIsInteger(v: Value, bits: int)
    requires Fits(v, bits)
    ensures v.Integer?
  {
  }

  lemma FirstIsNamed(columns: seq<Column>, name: string, c: Column)
    requires FirstColumn(columns, name, c)
    ensures c.name == name
  {
  }

  lemma TenantPinMeans(q: Request, s: Settings, t: Table, tc: Column, equals: Row)
    requires Adds(Leaves(q.condition), map[], equals) && TenantIs(q, s, t, tc)
    requires TenantUsable(t.columns, s.policies(q.table), s)
    ensures TenantPinned(Target(q.table, "", t, s.policies(q.table)), s, equals) <==> Pinned(q, tc.name, s.tenant.value)
  {
    hide Leaves, Adds, Pinned, FirstColumn, FindColumn, Fits, TenantUsable;
    FindColumnMeans(t.columns, s.policies(q.table).tenantColumn, tc);
    assert tc.bits == 16 || tc.bits == 32 || tc.bits == 64;
    var v := s.tenant.value;
    FitsMeans(v, tc.bits);
    FitsMeans(Got(equals, tc.name), tc.bits);
    GotMeans(q, equals, tc.name, v);
    FitsIsInteger(v, tc.bits);
    FirstIsNamed(t.columns, s.policies(q.table).tenantColumn, tc);
  }

  /** Everything but the key and the caller's row. */
  predicate Ready(q: Request, s: Settings, t: Table, tc: Column, vc: Column) {
    && PlainUpdate(q, s) && Declared(q, s, t) && TenantIs(q, s, t, tc) && VersionIs(q, s, t, tc, vc)
    && Transparent(q.condition)
    && Fresh(Leaves(q.condition), Target(q.table, "", t, s.policies(q.table)), q.version.column, map[])
    && Pinned(q, tc.name, s.tenant.value)
  }

  lemma ReadyIsEligible(q: Request, s: Settings, t: Table, tc: Column, vc: Column)
    requires Ready(q, s, t, tc, vc)
    ensures Eligible(q, s) && TargetOf(q, s) == Target(q.table, "", t, s.policies(q.table))
    ensures Adds(Leaves(q.condition), map[], Found(q, s))
  {
    hide Leaves, Adds, Pinned, FirstColumn, FindColumn, Fits, TenantUsable, TenantPinned, VersionUsable, Walk, Fresh;
    hide Transparent, TenantTarget, IntegerColumn, VersionIs, Declared;
    var g := Target(q.table, "", t, s.policies(q.table));
    TenantMeans(q, s, t, tc);
    TargetMeans(q, s, t);
    VersionMeans(q, s, t, tc, vc);
    WalkExactly(q.condition, g, q.version.column);
    TenantPinMeans(q, s, t, tc, Walk(q.condition, g, q.version.column, map[]).value);
  }

  lemma EligibleParts(q: Request, s: Settings)
    requires Eligible(q, s)
    ensures var g := TargetOf(q, s);
            && q.alias == "" && g == Target(q.table, "", g.schema, s.policies(q.table))
            && FindColumn(g.schema.columns, g.policy.tenantColumn).Some?
            && FindColumn(g.schema.columns, q.version.column).Some?
  {
    hide ScopePath, ScopeIdent, FindTable, FindColumn, ValidKey, ScopeInteger, Walk, TenantPinned;
  }

  lemma EligibleIsReady(q: Request, s: Settings) returns (t: Table, tc: Column, vc: Column)
    requires Eligible(q, s)
    ensures Ready(q, s, t, tc, vc) && TargetOf(q, s) == Target(q.table, "", t, s.policies(q.table))
  {
    hide Leaves, Adds, Pinned, FirstColumn, FindColumn, Fits, TenantUsable, TenantPinned, VersionUsable, Walk, Fresh;
    hide Transparent, TenantTarget, IntegerColumn, Declared, TenantIs, VersionIs;
    var g := TargetOf(q, s);
    t := g.schema;
    EligibleParts(q, s);
    TargetMeans(q, s, t);
    tc := FindColumn(t.columns, g.policy.tenantColumn).value;
    TenantMeans(q, s, t, tc);
    vc := FindColumn(t.columns, q.version.column).value;
    VersionMeans(q, s, t, tc, vc);
    WalkExactly(q.condition, g, q.version.column);
    TenantPinMeans(q, s, t, tc, Walk(q.condition, g, q.version.column, map[]).value);
  }

  lemma TenantName(q: Request, s: Settings, t: Table, tc: Column)
    requires TenantIs(q, s, t, tc)
    ensures s.policies(q.table).tenantColumn == tc.name
  {
  }

  lemma KeyIsPrimary(q: Request, s: Settings, t: Table, p: int)
    requires KeyIs(q, s, t, p)
    ensures OnlyPrimary(t.keys, p)
  {
  }

  lemma ReadyTenant(q: Request, s: Settings, t: Table, tc: Column, vc: Column)
    requires Ready(q, s, t, tc, vc)
    ensures TenantIs(q, s, t, tc)
  {
    hide TenantIs;
  }

  /** A versioned update is accepted, over primary key p, exactly when the query, the
      settings and the declared table satisfy these conditions on their own fields. */
  lemma AcceptsExactly(q: Request, s: Settings, p: int)
    ensures Accepts(q, s, p) <==>
            exists t: Table, tc: Column, vc: Column ::
              Ready(q, s, t, tc, vc) && KeyIs(q, s, t, p) && SparesProtected(q, t, tc, p)
  {
    hide Eligible, Ready, KeyIs, SparesProtected, KeyPinned, Protected, Adds, Leaves, Walk, TenantIs;
    if Accepts(q, s, p) {
      var t, tc, vc := EligibleIsReady(q, s);
      ReadyIsEligible(q, s, t, tc, vc);
      KeyMeans(q, s, t, p, Found(q, s));
      ReadyTenant(q, s, t, tc, vc);
      TenantName(q, s, t, tc);
      SparesMeans(q, s, t, tc, p);
    }
    if t: Table, tc: Column, vc: Column :|
       Ready(q, s, t, tc, vc) && KeyIs(q, s, t, p) && SparesProtected(q, t, tc, p) {
      ReadyIsEligible(q, s, t, tc, vc);
      KeyIsPrimary(q, s, t, p);
      KeyMeans(q, s, t, p, Found(q, s));
      ReadyTenant(q, s, t, tc, vc);
      TenantName(q, s, t, tc);
      SparesMeans(q, s, t, tc, p);
    }
  }

  // --------------------------------------------------------------- what is written

  /** Column by column: the version is raised, every column the caller assigns (and, with
      a list of columns, lists) takes the caller's value, and no other column changes. */
  lemma WritesExactly(q: Request, s: Settings, p: int, row: Row, c: string)
    requires Accepts(q, s, p)
    ensures var after := Changed(Accepted(q), row);
            && (c == q.version.column ==> c in after && after[c] == Integer(q.version.expected + 1))
            && (c in q.row && (q.columns == [] || c in q.columns) ==> c in after && after[c] == q.row[c])
            && (c != q.version.column && (c !in q.row || (q.columns != [] && c !in q.columns)) ==>
                  (c in after <==> c in row) && (c in row ==> after[c] == row[c]))
  {
    hide Eligible, KeyPinned, TenantTarget, Walk;
    var guarded := Protected(TargetOf(q, s), TargetOf(q, s).schema.keys[p], q.version.column);
    assert q.version.column in guarded && q.row.Keys !! guarded;
  }

  // ------------------------------------------------------------------- identifiers

  /** One to 256 letters, digits and underscores, the first no digit. */
  predicate Identifier(s: string) {
    && 1 <= |s| <= 256 && !('0' <= s[0] <= '9')
    && forall i :: 0 <= i < |s| ==>
         'a' <= s[i] <= 'z' || 'A' <= s[i] <= 'Z' || '0' <= s[i] <= '9' || s[i] == '_'
  }

  lemma IdentifierMeans(s: string)
    ensures ScopeIdent(s) <==> Identifier(s)
    ensures Identifier(s) ==> '.' !in s
  {
  }

  lemma {:induction false} PartsWithout(s: string)
    requires '.' !in s
    ensures Parts(s) == [s]
  {
    if s != "" {
      PartsWithout(s[1..]);
      assert s == [s[0]] + s[1..];
    }
  }

  lemma {:induction false} PartsAround(a: string, b: string)
    requires '.' !in a
    ensures Parts(a + "." + b) == [a] + Parts(b)
  {
    var s := a + "." + b;
    if a == "" {
      assert s[1..] == b;
    } else {
      assert s[1..] == a[1..] + "." + b && a == [a[0]] + a[1..];
      PartsAround(a[1..], b);
    }
  }

  /** Text before and after the first dot. */
  lemma {:induction false} FirstDot(s: string) returns (a: string, b: string)
    requires '.' in s
    ensures '.' !in a && s == a + "." + b
  {
    if s[0] == '.' {
      a, b := "", s[1..];
    } else {
      a, b := FirstDot(s[1..]);
      a := [s[0]] + a;
      assert s == [s[0]] + s[1..];
    }
  }

  lemma {:induction false} PartsAreIdentifiers(s: string, n: nat)
    requires n >= 1
    ensures |Parts(s)| <= n && (forall p :: p in Parts(s) ==> ScopeIdent(p)) <==> PathOf(s, n)
    decreases n
  {
    hide Identifier, ScopeIdent, Parts;
    if '.' in s {
      var a, b := FirstDot(s);
      PartsAround(a, b);
      IdentifierMeans(a);
      assert Parts(b) != [];
      assert (forall p :: p in Parts(s) ==> ScopeIdent(p))
             <==> ScopeIdent(a) && forall p :: p in Parts(b) ==> ScopeIdent(p);
      if n > 1 {
        PartsAreIdentifiers(b, n - 1);
        DotIsFirst(s, a, b, n);
      } else {
        IdentifierMeans(s);
      }
    } else {
      PartsWithout(s);
      IdentifierMeans(s);
    }
  }

  /** At most n identifiers with dots between them. */
  ghost predicate PathOf(s: string, n: nat)
    decreases n
  {
    Identifier(s) || (n > 1 && exists a: string, b: string :: Identifier(a) && PathOf(b, n - 1) && s == a + "." + b)
  }

  lemma DotIsFirst(s: string, a: string, b: string, n: nat)
    requires n > 1 && '.' !in a && s == a + "." + b
    ensures PathOf(s, n) <==> Identifier(a) && PathOf(b, n - 1)
  {
    hide Identifier;
    IdentifierMeans(s);
    assert s[|a|] == '.';
    if PathOf(s, n) {
      var c, d :| Identifier(c) && PathOf(d, n - 1) && s == c + "." + d;
      IdentifierMeans(c);
      assert s[|c|] == '.';
      assert forall k :: 0 <= k < |a| ==> s[k] == a[k] && s[k] in a;
      assert forall k :: 0 <= k < |c| ==> s[k] == c[k] && s[k] in c;
      assert a == s[..|a|] && c == s[..|c|] && b == s[|a| + 1..] && d == s[|c| + 1..];
    }
  }

  /** Table names have at most one dot, column references at most two, and identifiers
      between them. */
  lemma PathsMean(s: string)
    ensures ScopePath(s) <==> PathOf(s, 2)
    ensures ScopeColumn(s) <==> PathOf(s, 3)
  {
    PartsAreIdentifiers(s, 2);
    PartsAreIdentifiers(s, 3);
  }
}
