/** orm/query/optimistic.go: which updates may carry an expected version, and what
    such an update does to the rows of its table. */
module Optimistic {
  import opened Text

  // ------------------------------------------------------------------- data model

  /** Go's integers: every signed and unsigned width up to 64 bits. */
  type GoInteger = n: int | -0x8000_0000_0000_0000 <= n <= 0xffff_ffff_ffff_ffff

  type Int64 = n: int | -0x8000_0000_0000_0000 <= n <= 0x7fff_ffff_ffff_ffff

  const MAX_INT64: int := 0x7fff_ffff_ffff_ffff

  /** A column or argument value; text is taken up to the database's collation. */
  datatype Value = Null | Integer(n: GoInteger) | Other(text: string)

  type Row = map<string, Value>

  datatype Column = Column(name: string, dbType: string, bits: int, unsigned: bool, nullable: bool)

  datatype Key = Key(
    kind: string, columns: seq<Column>, allRows: bool, valid: bool, notDeferrable: bool,
    partial: bool, expression: bool)

  datatype Bound = Bound(isolation: string, data: Value)

  /** One node of the detached condition tree; Absent is a nil pointer. */
  datatype Node =
    | Absent
    | Node(kind: string, children: seq<Node>, column: string, operator: string, values: seq<Bound>,
           opaqueReason: string, correspondence: string)

  datatype Policy = Policy(table: string, tenantColumn: string, named: seq<string>)

  datatype Table = Table(name: string, plain: bool, columns: seq<Column>, keys: seq<Key>)

  /** The settings the update is planned under. */
  datatype Settings = Settings(
    strict: bool, database: string, dialect: string, schema: Option<Schema>,
    policies: string -> Policy, tenant: Option<Value>)

  datatype Schema = Schema(database: string, dialect: string, tables: seq<Table>)

  datatype Target = Target(table: string, alias: string, schema: Table, policy: Policy)

  datatype Version = Version(column: string, expected: Int64)

  /** The write expectations of the query and the builder's state. */
  datatype Request = Request(
    table: string, alias: string, version: Version, invalid: bool, expectedRows: Option<int>, zeroError: bool,
    assignments: nat, columns: seq<string>, joins: nat, having: bool, unverified: nat, condition: Node,
    row: Row)

  /** What is executed: the caller's condition and version = expected. */
  datatype Update = Update(condition: Node, version: Version, row: Row, columns: seq<string>)

  // ------------------------------------------------------------------ identifiers

  predicate IdentByte(c: char, first: bool) { IsLower(c) || IsUpper(c) || c == '_' || (!first && IsDigit(c)) }

  predicate ScopeIdent(s: string) {
    s != "" && |s| <= 256 && forall i :: 0 <= i < |s| ==> IdentByte(s[i], i == 0)
  }

  /** strings.Split at the dots. */
  function Parts(s: string): (r: seq<string>)
    ensures r != []
  {
    if s == "" then [""]
    else if s[0] == '.' then [""] + Parts(s[1..])
    else [[s[0]] + Parts(s[1..])[0]] + Parts(s[1..])[1..]
  }

  predicate ScopePath(s: string) { |Parts(s)| <= 2 && forall p :: p in Parts(s) ==> ScopeIdent(p) }

  predicate ScopeColumn(s: string) { |Parts(s)| <= 3 && forall p :: p in Parts(s) ==> ScopeIdent(p) }

  // --------------------------------------------------------------- integers, keys

  function TwoTo(k: nat): nat { if k == 0 then 1 else 2 * TwoTo(k - 1) }

  /** scopeInteger: a value that a signed column of this width can hold. */
  function ScopeInteger(v: Value, bits: int): Option<int>
    requires bits >= 1
  {
    if !v.Integer? || v.n > MAX_INT64 then None
    else if bits < 64 && (v.n + TwoTo(bits - 1) < 0 || v.n > TwoTo(bits - 1) - 1) then None
    else Some(v.n)
  }

  function KeyBits(dialect: string, dbType: string): int {
    if dialect == "mysql" then
      if dbType == "SMALLINT" then 16 else if dbType == "INT" then 32 else if dbType == "BIGINT" then 64 else 0
    else if dialect == "postgres" then
      if dbType == "smallint" then 16 else if dbType == "integer" then 32 else if dbType == "bigint" then 64 else 0
    else 0
  }

  predicate ValidColumn(kind: string, c: Column, dialect: string) {
    ScopeIdent(c.name) && !c.unsigned && !(kind == "primary" && c.nullable)
    && KeyBits(dialect, c.dbType) != 0 && KeyBits(dialect, c.dbType) == c.bits
  }

  predicate ValidHeader(k: Key) {
    (k.kind == "primary" || k.kind == "unique") && k.allRows && k.valid && k.notDeferrable
    && !k.partial && !k.expression && k.columns != []
  }

  predicate ValidColumns(k: Key, dialect: string) {
    forall i :: 0 <= i < |k.columns| ==> ValidColumn(k.kind, k.columns[i], dialect)
  }

  predicate DistinctNames(columns: seq<Column>) {
    forall i, j :: 0 <= i < j < |columns| ==> columns[i].name != columns[j].name
  }

  predicate ValidKey(k: Key, dialect: string) {
    ValidHeader(k) && ValidColumns(k, dialect) && DistinctNames(k.columns)
  }

  function Single(kind: string, c: Column): Key { Key(kind, [c], true, true, true, false, false) }

  // ------------------------------------------------------------------- the target

  function FindColumn(columns: seq<Column>, name: string): (r: Option<Column>)
    ensures r.Some? ==> r.value in columns && r.value.name == name
    ensures r.None? ==> forall c :: c in columns ==> c.name != name
  {
    if columns == [] then None
    else if columns[0].name == name then Some(columns[0])
    else FindColumn(columns[1..], name)
  }

  function FindTable(tables: seq<Table>, name: string): Option<Table> {
    if tables == [] then None else if tables[0].name == name then Some(tables[0]) else FindTable(tables[1..], name)
  }

  predicate TenantUsable(columns: seq<Column>, policy: Policy, s: Settings) {
    policy.tenantColumn == "" ||
    var c := FindColumn(columns, policy.tenantColumn);
    && c.Some? && !c.value.nullable && ValidKey(Single("unique", c.value), s.dialect)
    && s.tenant.Some? && c.value.bits >= 1 && ScopeInteger(s.tenant.value, c.value.bits).Some?
  }

  predicate PolicyUsable(t: Table, policy: Policy, s: Settings) {
    && (policy.table == "" || policy.table == t.name)
    && (forall name :: name in policy.named ==> FindColumn(t.columns, name).Some?)
    && TenantUsable(t.columns, policy, s)
  }

  /** tenantTargets, for the single table of a write. */
  function TenantTarget(s: Settings, table: string, alias: string): Option<Target> {
    if s.schema.None? || s.database == "" || s.database != s.schema.value.database then None
    else if s.dialect == "" || s.dialect != s.schema.value.dialect then None
    else if !ScopePath(table) || (alias != "" && !ScopeIdent(alias)) then None
    else
      var t := FindTable(s.schema.value.tables, table);
      if t.None? || !t.value.plain || !PolicyUsable(t.value, s.policies(table), s) then None
      else Some(Target(table, alias, t.value, s.policies(table)))
  }

  function Resolve(t: Target, reference: string): Option<string> {
    if !ScopeColumn(reference) then None
    else
      var (qualifier, column) := CutLast(reference);
      if qualifier != "" && qualifier != (if t.alias != "" then t.alias else t.table) then None
      else if FindColumn(t.schema.columns, column).None? then None
      else Some(column)
  }

  // ---------------------------------------------------------------- the tree walk

  predicate Trusted(n: Node) { n.Node? && n.correspondence == "generated" && n.opaqueReason == "" }

  predicate Conjunction(n: Node) { n.Node? && (n.kind == "and" || n.kind == "group") }

  predicate Equality(n: Node) { n.Node? && n.kind == "comparison" && n.operator == "=" && |n.values| == 1 }

  function Pin(n: Node, t: Target, version: string, equals: Row): Option<Row>
    requires n.Node?
  {
    if !Equality(n) || n.values[0].isolation != "detached" then None
    else
      var column := Resolve(t, n.column);
      if column.None? || column.value == version || column.value in equals then None
      else Some(equals[column.value := n.values[0].data])
  }

  function Walk(n: Node, t: Target, version: string, equals: Row): Option<Row> {
    if !Trusted(n) then None
    else if Conjunction(n) then
      if n.children == [] then None else WalkAll(n.children, t, version, equals)
    else Pin(n, t, version, equals)
  }

  function WalkAll(ns: seq<Node>, t: Target, version: string, equals: Row): Option<Row> {
    if ns == [] then Some(equals)
    else
      var r := Walk(ns[0], t, version, equals);
      if r.None? then None else WalkAll(ns[1..], t, version, r.value)
  }

  /** The closure of optimisticInput, with the map it fills passed along. */
  method WalkTree(n: Node, t: Target, version: string, equals: Row) returns (ok: bool, filled: Row)
    ensures ok <==> Walk(n, t, version, equals).Some?
    ensures ok ==> filled == Walk(n, t, version, equals).value
  {
    filled := equals;
    if !Trusted(n) { return false, filled; }
    if Conjunction(n) {
      if n.children == [] { return false, filled; }
      for i := 0 to |n.children|
        invariant WalkAll(n.children, t, version, equals) == WalkAll(n.children[i..], t, version, filled)
      {
        ok, filled := WalkTree(n.children[i], t, version, filled);
        if !ok { return; }
        assert n.children[i..][1..] == n.children[i + 1..];
      }
      return true, filled;
    }
    if !Equality(n) || n.values[0].isolation != "detached" { return false, filled; }
    var column := Resolve(t, n.column);
    if column.None? || column.value == version || column.value in filled { return false, filled; }
    return true, filled[column.value := n.values[0].data];
  }

  // ------------------------------------------------------------ meaning of the tree

  /** SQL equality: never true of a null. */
  predicate Equal(row: Row, column: string, v: Value) {
    column in row && row[column] == v && v != Null
  }

  /** The condition on one row; rest gives meaning to what the walk refuses. */
  ghost predicate Holds(n: Node, row: Row, rest: (Node, Row) -> bool) {
    if Conjunction(n) then forall i :: 0 <= i < |n.children| ==> Holds(n.children[i], row, rest)
    else if Equality(n) then Equal(row, CutLast(n.column).1, n.values[0].data)
    else rest(n, row)
  }

  ghost predicate HoldsAll(ns: seq<Node>, row: Row, rest: (Node, Row) -> bool) {
    forall i :: 0 <= i < |ns| ==> Holds(ns[i], row, rest)
  }

  ghost predicate Pins(equals: Row, row: Row) { forall c :: c in equals ==> Equal(row, c, equals[c]) }

  /** A tree the walk accepts is exactly the conjunction of the equalities found. */
  lemma {:induction false} WalkMeans(n: Node, t: Target, version: string, equals: Row, row: Row,
      rest: (Node, Row) -> bool)
    requires Walk(n, t, version, equals).Some?
    ensures Pins(Walk(n, t, version, equals).value, row) <==> Pins(equals, row) && Holds(n, row, rest)
    decreases n, 0
  {
    if Conjunction(n) {
      WalkAllMeans(n.children, t, version, equals, row, rest, n);
    } else {
      PinMeans(equals, CutLast(n.column).1, n.values[0].data, row);
    }
  }

  lemma {:induction false} WalkAllMeans(
    ns: seq<Node>, t: Target, version: string, equals: Row, row: Row, rest: (Node, Row) -> bool, parent: Node)
    requires WalkAll(ns, t, version, equals).Some?
    requires parent.Node? && |ns| <= |parent.children| && ns == parent.children[|parent.children| - |ns|..]
    ensures Pins(WalkAll(ns, t, version, equals).value, row) <==> Pins(equals, row) && HoldsAll(ns, row, rest)
    decreases parent, 0, |ns|
  {
    if ns != [] {
      var next := Walk(ns[0], t, version, equals).value;
      assert ns[0] in parent.children;
      WalkMeans(ns[0], t, version, equals, row, rest);
      WalkAllMeans(ns[1..], t, version, next, row, rest, parent);
      HoldsFirst(ns, row, rest);
    }
  }

  lemma HoldsFirst(ns: seq<Node>, row: Row, rest: (Node, Row) -> bool)
    requires ns != []
    ensures HoldsAll(ns, row, rest) <==> Holds(ns[0], row, rest) && HoldsAll(ns[1..], row, rest)
  {
    hide Holds;
    if Holds(ns[0], row, rest) && HoldsAll(ns[1..], row, rest) {
      forall i | 0 <= i < |ns| ensures Holds(ns[i], row, rest) {
        if i > 0 { assert ns[i] == ns[1..][i - 1]; }
      }
    }
    if HoldsAll(ns, row, rest) {
      forall i | 0 <= i < |ns[1..]| ensures Holds(ns[1..][i], row, rest) { assert ns[1..][i] == ns[i + 1]; }
    }
  }

  lemma PinMeans(equals: Row, column: string, v: Value, row: Row)
    requires column !in equals
    ensures Pins(equals[column := v], row) <==> Pins(equals, row) && Equal(row, column, v)
  {
    hide Equal;
    var all := equals[column := v];
    if Pins(all, row) {
      assert all[column] == v;
      forall c | c in equals ensures Equal(row, c, equals[c]) { assert c in all && all[c] == equals[c]; }
    }
  }

  // ------------------------------------------------------------------- acceptance

  predicate ValidOptions(q: Request) {
    && !q.invalid && (q.expectedRows.Some? ==> q.expectedRows.value == 1)
    && 0 <= q.version.expected && q.version.column != "" && !q.zeroError
  }

  predicate VersionUsable(q: Request, t: Target, dialect: string) {
    var c := FindColumn(t.schema.columns, q.version.column);
    && c.Some? && ValidKey(Single("primary", c.value), dialect) && !c.value.nullable
    && c.value.name != t.policy.tenantColumn && q.version.expected < MAX_INT64
    && 1 <= c.value.bits && ScopeInteger(Integer(q.version.expected + 1), c.value.bits).Some?
  }

  function Got(equals: Row, column: string): Value { if column in equals then equals[column] else Null }

  predicate TenantPinned(t: Target, s: Settings, equals: Row)
    requires t.policy.tenantColumn != "" && TenantUsable(t.schema.columns, t.policy, s)
  {
    var c := FindColumn(t.schema.columns, t.policy.tenantColumn).value;
    ScopeInteger(Got(equals, c.name), c.bits) == ScopeInteger(s.tenant.value, c.bits)
  }

  predicate ColumnPinned(t: Target, c: Column, version: string, equals: Row) {
    FindColumn(t.schema.columns, c.name) == Some(c) && c.name != version
    && 1 <= c.bits && ScopeInteger(Got(equals, c.name), c.bits).Some?
  }

  predicate KeyPinned(t: Target, k: Key, dialect: string, version: string, equals: Row) {
    ValidKey(k, dialect) && forall i :: 0 <= i < |k.columns| ==> ColumnPinned(t, k.columns[i], version, equals)
  }

  /** Key p is the only primary key declared. */
  predicate OnlyPrimary(keys: seq<Key>, p: int) {
    0 <= p < |keys| && keys[p].kind == "primary" && forall i :: 0 <= i < |keys| && keys[i].kind == "primary" ==> i == p
  }

  function Names(columns: seq<Column>): (r: set<string>)
    ensures forall x :: x in r <==> exists i :: 0 <= i < |columns| && columns[i].name == x
  {
    if columns == [] then {} else {columns[0].name} + Names(columns[1..])
  }

  function Protected(t: Target, k: Key, version: string): set<string> {
    {t.policy.tenantColumn, version} + Names(k.columns)
  }

  predicate Eligible(q: Request, s: Settings) {
    && ValidOptions(q) && s.strict && q.assignments == 0 && ScopeIdent(q.version.column)
    && TenantTarget(s, q.table, q.alias).Some?
    && var t := TenantTarget(s, q.table, q.alias).value;
    && t.alias == "" && t.policy.tenantColumn != "" && VersionUsable(q, t, s.dialect)
    && q.joins == 0 && !q.having && q.unverified == 0
    && Walk(q.condition, t, q.version.column, map[]).Some?
    && TenantPinned(t, s, Walk(q.condition, t, q.version.column, map[]).value)
  }

  predicate Accepts(q: Request, s: Settings, p: int) {
    && Eligible(q, s)
    && var t := TenantTarget(s, q.table, q.alias).value;
    && OnlyPrimary(t.schema.keys, p)
    && KeyPinned(t, t.schema.keys[p], s.dialect, q.version.column, Walk(q.condition, t, q.version.column, map[]).value)
    && q.row.Keys !! Protected(t, t.schema.keys[p], q.version.column)
  }

  function Accepted(q: Request): Update {
    Update(q.condition, q.version, q.row[q.version.column := Integer(q.version.expected + 1)],
           if q.columns == [] then [] else q.columns + [q.version.column])
  }

  /** One primary key met by the loop: every column known, pinned and not the version. */
  method PinKey(t: Target, k: Key, version: string, equals: Row, dialect: string) returns (ok: bool)
    requires ValidKey(k, dialect)
    ensures ok <==> KeyPinned(t, k, dialect, version, equals)
  {
    for i := 0 to |k.columns|
      invariant forall j :: 0 <= j < i ==> ColumnPinned(t, k.columns[j], version, equals)
    {
      var c := k.columns[i];
      assert ValidColumn(k.kind, c, dialect);
      var actual := FindColumn(t.schema.columns, c.name);
      if actual != Some(c) || c.name == version { return false; }
      if ScopeInteger(Got(equals, c.name), c.bits).None? { return false; }
    }
    return true;
  }

  /** The loop over the declared constraints: exactly one primary key, and pinned. */
  method FindKey(t: Target, version: string, equals: Row, dialect: string) returns (found: Option<nat>)
    ensures found.Some? <==>
              exists p :: OnlyPrimary(t.schema.keys, p) && KeyPinned(t, t.schema.keys[p], dialect, version, equals)
    ensures found.Some? ==>
              OnlyPrimary(t.schema.keys, found.value)
                  && KeyPinned(t, t.schema.keys[found.value], dialect, version, equals)
  {
    hide KeyPinned, ValidKey;
    var keys := t.schema.keys;
    found := None;
    for i := 0 to |keys|
      invariant found.None? ==> forall j :: 0 <= j < i ==> keys[j].kind != "primary"
      invariant found.Some? ==> found.value < i && keys[found.value].kind == "primary"
      invariant found.Some? ==> forall j :: 0 <= j < i && keys[j].kind == "primary" ==> j == found.value
      invariant found.Some? ==> KeyPinned(t, keys[found.value], dialect, version, equals)
    {
      if keys[i].kind == "primary" {
        if found.Some? || !ValidKey(keys[i], dialect) {
          PinnedIsValid(t, keys[i], dialect, version, equals);
          return None;
        }
        var ok := PinKey(t, keys[i], version, equals, dialect);
        if !ok { return None; }
        found := Some(i);
      }
    }
  }

  lemma PinnedIsValid(t: Target, k: Key, dialect: string, version: string, equals: Row)
    ensures KeyPinned(t, k, dialect, version, equals) ==> ValidKey(k, dialect)
  {
  }

  /** The loop over the caller's row, in Go's unspecified map order. */
  method CopyRow(row: Row, guarded: set<string>) returns (out: Option<Row>)
    ensures out.Some? <==> row.Keys !! guarded
    ensures out.Some? ==> out.value == row
  {
    var copied: Row := map[];
    var todo := row.Keys;
    while todo != {}
      invariant todo <= row.Keys && copied.Keys == row.Keys - todo && copied.Keys !! guarded
      invariant forall c :: c in copied ==> copied[c] == row[c]
    {
      var c :| c in todo;
      if c in guarded { return None; }
      copied, todo := copied[c := row[c]], todo - {c};
    }
    assert copied == row;
    return Some(copied);
  }

  /** optimisticInput, for a query that carries a version. */
  method OptimisticInput(q: Request, s: Settings) returns (r: Option<Update>)
    ensures r.Some? <==> exists p :: Accepts(q, s, p)
    ensures r.Some? ==> r.value == Accepted(q)
  {
    hide KeyPinned, Walk, TenantTarget, FindColumn, ValidKey, ScopeInteger, TenantUsable, ScopeIdent;
    if !ValidOptions(q) || !s.strict || q.assignments != 0 || !ScopeIdent(q.version.column) { return None; }
    var target := TenantTarget(s, q.table, q.alias);
    if target.None? { return None; }
    var t := target.value;
    if t.alias != "" || t.policy.tenantColumn == "" { return None; }
    if !VersionUsable(q, t, s.dialect) { return None; }
    if q.joins != 0 || q.having || q.unverified != 0 { return None; }
    var ok, equals := WalkTree(q.condition, t, q.version.column, map[]);
    if !ok { return None; }
    TargetUsable(s, q.table, q.alias);
    if !TenantPinned(t, s, equals) { return None; }
    var key := FindKey(t, q.version.column, equals, s.dialect);
    if key.None? { return None; }
    var k := t.schema.keys[key.value];
    var out := CopyRow(q.row, Protected(t, k, q.version.column));
    OnePrimary(t.schema.keys, key.value);
    if out.None? { return None; }
    var columns := q.columns;
    if columns != [] { columns := columns + [q.version.column]; }
    assert Accepts(q, s, key.value);
    return Some(Update(q.condition, q.version, out.value[q.version.column := Integer(q.version.expected + 1)],
           columns));
  }

  lemma TargetUsable(s: Settings, table: string, alias: string)
    ensures TenantTarget(s, table, alias).Some? ==>
              var t := TenantTarget(s, table, alias).value; TenantUsable(t.schema.columns, t.policy, s)
  {
  }

  lemma OnePrimary(keys: seq<Key>, p: int)
    requires OnlyPrimary(keys, p)
    ensures forall other :: OnlyPrimary(keys, other) ==> other == p
  {
  }

  // -------------------------------------------------- what an accepted update does

  ghost predicate Matches(u: Update, row: Row, rest: (Node, Row) -> bool) {
    Holds(u.condition, row, rest) && Equal(row, u.version.column, Integer(u.version.expected))
  }

  /** The columns written: those listed, or all of the row when none are. */
  function Assigned(u: Update): Row {
    if u.columns == [] then u.row else map c | c in u.row && c in u.columns :: u.row[c]
  }

  function Changed(u: Update, row: Row): Row { row + Assigned(u) }

  function TargetOf(q: Request, s: Settings): Target
    requires Eligible(q, s)
  {
    TenantTarget(s, q.table, q.alias).value
  }

  function Found(q: Request, s: Settings): Row
    requires Eligible(q, s)
  {
    Walk(q.condition, TargetOf(q, s), q.version.column, map[]).value
  }

  /** The rows matched are those with every found equality and the expected version. */
  lemma MatchesExactly(q: Request, s: Settings, row: Row, rest: (Node, Row) -> bool)
    requires Eligible(q, s)
    ensures Matches(Accepted(q), row, rest) <==>
            Pins(Found(q, s), row) && Equal(row, q.version.column, Integer(q.version.expected))
  {
    WalkMeans(q.condition, TargetOf(q, s), q.version.column, map[], row, rest);
  }

  /** Two rows are the same to a unique key: equal and non-null in every column. */
  ghost predicate SameKey(a: Row, b: Row, k: Key) {
    forall i :: 0 <= i < |k.columns| ==>
      k.columns[i].name in a && Equal(b, k.columns[i].name, a[k.columns[i].name])
  }

  ghost predicate UniqueKey<Id(!new)>(rows: map<Id, Row>, k: Key) {
    forall a, b :: a in rows && b in rows && SameKey(rows[a], rows[b], k) ==> a == b
  }

  /** An accepted update pins the key, so any two rows it matches are one row. */
  lemma MatchedRowsShareKey(q: Request, s: Settings, p: int, a: Row, b: Row, rest: (Node, Row) -> bool)
    requires Accepts(q, s, p)
    requires Matches(Accepted(q), a, rest) && Matches(Accepted(q), b, rest)
    ensures SameKey(a, b, TargetOf(q, s).schema.keys[p])
  {
    hide Holds, Walk, Eligible, ValidKey;
    var k, equals := TargetOf(q, s).schema.keys[p], Found(q, s);
    MatchesExactly(q, s, a, rest);
    MatchesExactly(q, s, b, rest);
    forall i | 0 <= i < |k.columns|
      ensures k.columns[i].name in a && Equal(b, k.columns[i].name, a[k.columns[i].name])
    {
      PinnedColumn(TargetOf(q, s), k, s.dialect, q.version.column, equals, i);
      assert Equal(a, k.columns[i].name, equals[k.columns[i].name]);
    }
  }

  lemma PinnedColumn(t: Target, k: Key, dialect: string, version: string, equals: Row, i: nat)
    requires KeyPinned(t, k, dialect, version, equals) && i < |k.columns|
    ensures k.columns[i].name in equals && k.columns[i].name != version
  {
    assert ColumnPinned(t, k.columns[i], version, equals);
  }

  /** At most one row of a table with that primary key is matched. */
  lemma MatchesAtMostOne<Id(!new)>(q: Request, s: Settings, p: int, rows: map<Id, Row>, a: Id, b: Id,
      rest: (Node, Row) -> bool)
    requires Accepts(q, s, p) && UniqueKey(rows, TargetOf(q, s).schema.keys[p])
    requires a in rows && b in rows
    requires Matches(Accepted(q), rows[a], rest) && Matches(Accepted(q), rows[b], rest)
    ensures a == b
  {
    MatchedRowsShareKey(q, s, p, rows[a], rows[b], rest);
  }

  /** The matched row belongs to the current tenant. */
  lemma MatchesOwnTenant(q: Request, s: Settings, p: int, row: Row, rest: (Node, Row) -> bool)
    requires Accepts(q, s, p) && Matches(Accepted(q), row, rest)
    ensures var tenant := TargetOf(q, s).policy.tenantColumn;
            tenant in row && row[tenant].Integer? && s.tenant.value.Integer? && row[tenant].n == s.tenant.value.n
  {
    hide Holds, Walk;
    MatchesExactly(q, s, row, rest);
  }

  /** The version moves from expected to expected + 1 inside the column's width, the
      tenant and the key stay, and the row no longer matches the same update. */
  lemma ChangeMeans(q: Request, s: Settings, p: int, row: Row, rest: (Node, Row) -> bool)
    requires Accepts(q, s, p) && Matches(Accepted(q), row, rest)
    ensures var after := Changed(Accepted(q), row);
            && Equal(row, q.version.column, Integer(q.version.expected))
            && Equal(after, q.version.column, Integer(q.version.expected + 1))
            && !Matches(Accepted(q), after, rest)
    ensures var c := FindColumn(TargetOf(q, s).schema.columns, q.version.column).value;
            c.bits >= 1 && ScopeInteger(Integer(q.version.expected + 1), c.bits) == Some(q.version.expected + 1)
    ensures KeepsProtected(TargetOf(q, s), TargetOf(q, s).schema.keys[p], row, Changed(Accepted(q), row))
  {
    hide Holds, Walk, KeyPinned, OnlyPrimary, TenantUsable, TenantTarget;
    KeyExcludesVersion(q, s, p);
  }

  ghost predicate KeepsProtected(t: Target, k: Key, before: Row, after: Row) {
    forall c :: c == t.policy.tenantColumn || c in Names(k.columns) ==>
      (c in before <==> c in after) && (c in before ==> after[c] == before[c])
  }

  lemma KeyExcludesVersion(q: Request, s: Settings, p: int)
    requires Accepts(q, s, p)
    ensures q.version.column !in Names(TargetOf(q, s).schema.keys[p].columns)
    ensures q.version.column != TargetOf(q, s).policy.tenantColumn
  {
    hide Walk, TenantUsable, TenantTarget, ValidKey;
    var t := TargetOf(q, s);
    var k := t.schema.keys[p];
    forall i | 0 <= i < |k.columns| ensures k.columns[i].name != q.version.column {
      PinnedColumn(t, k, s.dialect, q.version.column, Found(q, s), i);
    }
  }
}
