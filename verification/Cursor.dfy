/** orm/query/cursor.go: the generated OR-of-ANDs means lexicographic order under
    mixed directions, and paging by it visits a tie-free table exactly once. */
module Cursor {
  import opened Text

  /** Non-null column values, by their rank in the column's own order. */
  type Value = int

  datatype CursorColumn = CursorColumn(name: string, direction: string, raw: bool)

  datatype Comparison = Comparison(column: string, operator: char, parameter: string)

  /** A disjunction of conjunctions, with the values its parameters name. */
  datatype Clause = Clause(parts: seq<seq<Comparison>>, values: map<string, Value>)

  // ------------------------------------------------------------------- validation

  function Direction(d: string): Option<string> {
    var t := TrimSpace(d);
    if t == "" then Some("asc") else if ToLower(t) == "asc" || ToLower(t) == "desc" then Some(t) else None
  }

  /** What one column must satisfy; accepts stands for the checks on its text. */
  function NormalizedColumn(c: CursorColumn, v: Option<Value>, accepts: (string, bool) -> bool): Option<CursorColumn> {
    var name := TrimSpace(c.name);
    if name == "" || !accepts(name, c.raw) || Direction(c.direction).None? || v.None? then None
    else Some(CursorColumn(name, Direction(c.direction).value, c.raw))
  }

  predicate Accepted(columns: seq<CursorColumn>, values: seq<Option<Value>>, accepts: (string, bool) -> bool) {
    && columns != [] && |columns| == |values|
    && forall i :: 0 <= i < |columns| ==> NormalizedColumn(columns[i], values[i], accepts).Some?
  }

  /** validateCursorColumns: the first bad column refuses the cursor. */
  method ValidateCursorColumns(columns: seq<CursorColumn>, values: seq<Option<Value>>, accepts: (string, bool) -> bool)
    returns (normalized: Option<seq<CursorColumn>>)
    ensures normalized.Some? <==> Accepted(columns, values, accepts)
    ensures normalized.Some? ==> |normalized.value| == |columns|
    ensures normalized.Some? ==>
              forall i :: 0 <= i < |columns|
                  ==> Some(normalized.value[i]) == NormalizedColumn(columns[i], values[i], accepts)
  {
    hide NormalizedColumn;
    if columns == [] || |columns| != |values| { return None; }
    var out: seq<CursorColumn> := [];
    for i := 0 to |columns|
      invariant |out| == i
      invariant forall k :: 0 <= k < i ==> Some(out[k]) == NormalizedColumn(columns[k], values[k], accepts)
    {
      var c := NormalizedColumn(columns[i], values[i], accepts);
      if c.None? { return None; }
      out := out + [c.value];
    }
    return Some(out);
  }

  // ---------------------------------------------------------------- the predicate

  predicate Descending(c: CursorColumn) { ToLower(c.direction) == "desc" }

  function Operator(c: CursorColumn, after: bool): char { if after == Descending(c) then '<' else '>' }

  function ParameterName(i: nat, j: nat): string { "__goquent_cursor_" + FormatNat(i) + "_" + FormatNat(j) }

  function Conjunct(columns: seq<CursorColumn>, after: bool, i: nat, j: nat): Comparison
    requires j <= i < |columns|
  {
    Comparison(columns[j].name, if j < i then '=' else Operator(columns[j], after), ParameterName(i, j))
  }

  function Part(columns: seq<CursorColumn>, after: bool, i: nat, n: nat): seq<Comparison>
    requires i < |columns| && n <= i + 1
  {
    if n == 0 then [] else Part(columns, after, i, n - 1) + [Conjunct(columns, after, i, n - 1)]
  }

  function PartValues(values: seq<Value>, i: nat, n: nat, m: map<string, Value>): map<string, Value>
    requires i < |values| && n <= i + 1
  {
    if n == 0 then m else PartValues(values, i, n - 1, m)[ParameterName(i, n - 1) := values[n - 1]]
  }

  function ClauseUpTo(columns: seq<CursorColumn>, values: seq<Value>, after: bool, n: nat): Clause
    requires n <= |columns| == |values|
  {
    if n == 0 then Clause([], map[])
    else
      var c := ClauseUpTo(columns, values, after, n - 1);
      Clause(c.parts + [Part(columns, after, n - 1, n)], PartValues(values, n - 1, n, c.values))
  }

  /** cursorPredicate: nested loops over columns and their equal prefixes. */
  method CursorPredicate(columns: seq<CursorColumn>, values: seq<Value>, after: bool) returns (c: Clause)
    requires |columns| == |values|
    ensures c == ClauseUpTo(columns, values, after, |columns|)
  {
    hide ParameterName, Operator, Conjunct;
    c := Clause([], map[]);
    for i := 0 to |columns|
      invariant c == ClauseUpTo(columns, values, after, i)
    {
      var comparisons: seq<Comparison> := [];
      var vals := c.values;
      for j := 0 to i
        invariant comparisons == Part(columns, after, i, j) && vals == PartValues(values, i, j, c.values)
      {
        vals := vals[ParameterName(i, j) := values[j]];
        comparisons := comparisons + [Conjunct(columns, after, i, j)];
      }
      vals := vals[ParameterName(i, i) := values[i]];
      comparisons := comparisons + [Conjunct(columns, after, i, i)];
      c := Clause(c.parts + [comparisons], vals);
    }
  }

  // ----------------------------------------------------------------------- meaning

  /** A row gives every column expression a value. */
  type Row = string -> Value

  predicate Holds(c: Comparison, values: map<string, Value>, row: Row) {
    c.parameter in values &&
    var x, y := row(c.column), values[c.parameter];
    if c.operator == '=' then x == y else if c.operator == '<' then x < y else x > y
  }

  predicate PartHolds(part: seq<Comparison>, values: map<string, Value>, row: Row) {
    forall k :: 0 <= k < |part| ==> Holds(part[k], values, row)
  }

  /** The clause as SQL evaluates it on non-null values. */
  predicate Meets(c: Clause, row: Row) { exists i :: 0 <= i < |c.parts| && PartHolds(c.parts[i], c.values, row) }

  /** The values a row shows under the cursor's columns. */
  function Tuple(columns: seq<CursorColumn>, row: Row): (t: seq<Value>)
    ensures |t| == |columns|
    ensures forall i :: 0 <= i < |columns| ==> t[i] == row(columns[i].name)
  {
    if columns == [] then [] else Tuple(columns[..|columns| - 1], row) + [row(columns[|columns| - 1].name)]
  }

  predicate Beyond(c: CursorColumn, x: Value, y: Value) { if Descending(c) then x < y else x > y }

  /** Strictly later in directed lexicographic order: the first difference decides. */
  predicate Later(columns: seq<CursorColumn>, a: seq<Value>, b: seq<Value>)
    requires |a| == |b| == |columns|
  {
    columns != [] && (Beyond(columns[0], a[0], b[0]) || (a[0] == b[0] && Later(columns[1..], a[1..], b[1..])))
  }

  /** The first difference, wherever it is. */
  predicate DiffersFirst(columns: seq<CursorColumn>, a: seq<Value>, b: seq<Value>, i: nat)
    requires |a| == |b| == |columns|
  {
    i < |columns| && a[..i] == b[..i] && Beyond(columns[i], a[i], b[i])
  }

  lemma {:induction false} LaterMeans(columns: seq<CursorColumn>, a: seq<Value>, b: seq<Value>)
    requires |a| == |b| == |columns|
    ensures Later(columns, a, b) <==> exists i :: 0 <= i < |columns| && DiffersFirst(columns, a, b, i)
  {
    hide Beyond;
    if columns != [] {
      LaterMeans(columns[1..], a[1..], b[1..]);
      if Later(columns, a, b) {
        if Beyond(columns[0], a[0], b[0]) { assert DiffersFirst(columns, a, b, 0); }
        else {
          var k :| 0 <= k < |columns| - 1 && DiffersFirst(columns[1..], a[1..], b[1..], k);
          assert a[..k + 1] == [a[0]] + a[1..][..k] && b[..k + 1] == [b[0]] + b[1..][..k];
          assert DiffersFirst(columns, a, b, k + 1);
        }
      }
      if i :| 0 <= i < |columns| && DiffersFirst(columns, a, b, i) {
        if i > 0 {
          assert a[0] == a[..i][0] == b[..i][0] == b[0];
          assert a[1..][..i - 1] == a[..i][1..] && b[1..][..i - 1] == b[..i][1..];
          assert DiffersFirst(columns[1..], a[1..], b[1..], i - 1);
        }
      }
    }
  }

  // ----------------------------------------------------------- parameters are distinct

  lemma {:induction false} FormatNatInjective(a: nat, b: nat)
    ensures FormatNat(a) == FormatNat(b) ==> a == b
  {
    assert NatOf(FormatNat(a)) == a && NatOf(FormatNat(b)) == b;
  }

  lemma ParametersDistinct(i: nat, j: nat, k: nat, l: nat)
    requires ParameterName(i, j) == ParameterName(k, l)
    ensures i == k && j == l
  {
    var p := "__goquent_cursor_";
    var x, y := FormatNat(i) + "_" + FormatNat(j), FormatNat(k) + "_" + FormatNat(l);
    assert x == (p + FormatNat(i) + "_" + FormatNat(j))[|p|..] && y == (p + FormatNat(k) + "_" + FormatNat(l))[|p|..];
    CutFound(FormatNat(i), '_', FormatNat(j));
    CutFound(FormatNat(k), '_', FormatNat(l));
    FormatNatInjective(i, k);
    FormatNatInjective(j, l);
  }

  lemma {:induction false} PartValuesAt(values: seq<Value>, i: nat, n: nat, m: map<string, Value>, k: nat, l: nat)
    requires i < |values| && n <= i + 1
    ensures k == i && l < n ==>
              && ParameterName(k, l) in PartValues(values, i, n, m)
              && PartValues(values, i, n, m)[ParameterName(k, l)] == values[l]
    ensures k != i && ParameterName(k, l) in m ==>
              && ParameterName(k, l) in PartValues(values, i, n, m)
              && PartValues(values, i, n, m)[ParameterName(k, l)] == m[ParameterName(k, l)]
  {
    hide ParameterName;
    if n > 0 {
      PartValuesAt(values, i, n - 1, m, k, l);
      if ParameterName(k, l) == ParameterName(i, n - 1) { ParametersDistinct(k, l, i, n - 1); }
    }
  }

  /** No parameter overwrites another: each names exactly its own cursor value. */
  lemma {:induction false} ValuesAt(columns: seq<CursorColumn>, values: seq<Value>, after: bool, n: nat, k: nat, l: nat)
    requires l <= k < n <= |columns| == |values|
    ensures var v := ClauseUpTo(columns, values, after, n).values;
            ParameterName(k, l) in v && v[ParameterName(k, l)] == values[l]
  {
    hide ParameterName, Part;
    var before := ClauseUpTo(columns, values, after, n - 1).values;
    if k < n - 1 { ValuesAt(columns, values, after, n - 1, k, l); }
    PartValuesAt(values, n - 1, n, before, k, l);
  }

  lemma {:induction false} PartAt(columns: seq<CursorColumn>, after: bool, i: nat, n: nat)
    requires i < |columns| && n <= i + 1
    ensures |Part(columns, after, i, n)| == n && forall j :: 0 <= j < n
                                                  ==> Part(columns, after, i, n)[j] == Conjunct(columns, after, i, j)
  {
    hide Conjunct;
    if n > 0 { PartAt(columns, after, i, n - 1); }
  }

  lemma {:induction false} PartsAt(columns: seq<CursorColumn>, values: seq<Value>, after: bool, n: nat)
    requires n <= |columns| == |values|
    ensures var c := ClauseUpTo(columns, values, after, n);
            |c.parts| == n && forall i :: 0 <= i < n ==> c.parts[i] == Part(columns, after, i, i + 1)
  {
    hide Part, PartValues;
    if n > 0 { PartsAt(columns, values, after, n - 1); }
  }

  // --------------------------------------------------------- predicate and order agree

  /** One disjunct: equal up to column i, and on the wanted side there. */
  lemma PartMeans(columns: seq<CursorColumn>, values: seq<Value>, after: bool, i: nat, row: Row)
    requires i < |columns| == |values|
    ensures var c := ClauseUpTo(columns, values, after, |columns|);
            PartHolds(Part(columns, after, i, i + 1), c.values, row)
            <==> if after then DiffersFirst(columns, Tuple(columns, row), values, i)
                else DiffersFirst(columns, values, Tuple(columns, row), i)
  {
    hide ParameterName, ClauseUpTo, Tuple;
    var c := ClauseUpTo(columns, values, after, |columns|);
    var t := Tuple(columns, row);
    PartAt(columns, after, i, i + 1);
    var part := Part(columns, after, i, i + 1);
    forall j | 0 <= j <= i ensures Holds(part[j], c.values, row)
        <==> ConjunctHolds(columns[j], after, j < i, t[j], values[j]) {
      ValuesAt(columns, values, after, |columns|, i, j);
      OperatorMeans(columns[j], after);
    }
    if PartHolds(part, c.values, row) {
      assert ConjunctHolds(columns[i], after, false, t[i], values[i]);
      forall j | 0 <= j < i ensures t[j] == values[j] { assert Holds(part[j], c.values, row); }
      assert t[..i] == values[..i];
    }
    if t[..i] == values[..i] && ConjunctHolds(columns[i], after, false, t[i], values[i]) {
      forall j | 0 <= j <= i ensures Holds(part[j], c.values, row) { if j < i { assert t[..i][j] == values[..i][j]; } }
    }
  }

  predicate ConjunctHolds(c: CursorColumn, after: bool, equal: bool, x: Value, y: Value) {
    if equal then x == y else if after then Beyond(c, x, y) else Beyond(c, y, x)
  }

  lemma OperatorMeans(c: CursorColumn, after: bool)
    ensures Operator(c, after) == '<' <==> (after == Descending(c))
    ensures Operator(c, after) == '>' <==> (after != Descending(c))
  {
  }

  /** The generated predicate is directed lexicographic order: after means the row is
      strictly later than the cursor, before that the cursor is strictly later. */
  lemma PredicateMeansOrder(columns: seq<CursorColumn>, values: seq<Value>, after: bool, row: Row)
    requires |columns| == |values|
    ensures Meets(ClauseUpTo(columns, values, after, |columns|), row)
       <==> if after then Later(columns, Tuple(columns, row), values) else Later(columns, values, Tuple(columns, row))
  {
    hide Later, DiffersFirst, PartHolds, Part, Tuple, ClauseUpTo;
    var c := ClauseUpTo(columns, values, after, |columns|);
    var x, y := if after then Tuple(columns, row) else values, if after then values else Tuple(columns, row);
    PartsAt(columns, values, after, |columns|);
    LaterMeans(columns, x, y);
    forall i | 0 <= i < |columns| ensures PartHolds(c.parts[i], c.values, row) <==> DiffersFirst(columns, x, y, i) {
      PartMeans(columns, values, after, i, row);
    }
  }

  lemma {:induction false} LaterIrreflexive(columns: seq<CursorColumn>, a: seq<Value>)
    requires |a| == |columns|
    ensures !Later(columns, a, a)
  {
    if columns != [] { LaterIrreflexive(columns[1..], a[1..]); }
  }

  lemma {:induction false} LaterTransitive(columns: seq<CursorColumn>, a: seq<Value>, b: seq<Value>, c: seq<Value>)
    requires |a| == |b| == |c| == |columns| && Later(columns, a, b) && Later(columns, b, c)
    ensures Later(columns, a, c)
  {
    if a[0] == b[0] && b[0] == c[0] { LaterTransitive(columns[1..], a[1..], b[1..], c[1..]); }
  }

  /** Two rows are ordered one way, the other way, or tie. */
  lemma {:induction false} LaterTotal(columns: seq<CursorColumn>, a: seq<Value>, b: seq<Value>)
    requires |a| == |b| == |columns|
    ensures Later(columns, a, b) || Later(columns, b, a) || a == b
  {
    if columns != [] {
      LaterTotal(columns[1..], a[1..], b[1..]);
      if a[0] == b[0] && a[1..] == b[1..] { assert a == [a[0]] + a[1..] && b == [b[0]] + b[1..]; }
    }
  }

  // ------------------------------------------------------------------------ paging

  /** A result set in cursor order without ties. */
  ghost predicate Ordered(columns: seq<CursorColumn>, rows: seq<Row>) {
    forall i, j :: 0 <= i < j < |rows| ==> Later(columns, Tuple(columns, rows[j]), Tuple(columns, rows[i]))
  }

  /** WHERE over an ordered result set keeps the order. */
  function Where(c: Clause, rows: seq<Row>): seq<Row> {
    if rows == [] then [] else Where(c, rows[..|rows| - 1]) + if Meets(c, rows[|rows| - 1]) then [rows[|rows| - 1]]
       else []
  }

  function AfterRow(columns: seq<CursorColumn>, row: Row): Clause {
    ClauseUpTo(columns, Tuple(columns, row), true, |columns|)
  }

  function Limit(rows: seq<Row>, l: nat): seq<Row> { if |rows| <= l then rows else rows[..l] }

  /** SELECT ... WHERE after(last) ORDER BY ... LIMIT l; the first page has no cursor. */
  function Page(columns: seq<CursorColumn>, rows: seq<Row>, seen: seq<Row>, l: nat): seq<Row> {
    Limit(if seen == [] then rows else Where(AfterRow(columns, seen[|seen| - 1]), rows), l)
  }

  /** Everything seen after n pages, each asked for after the last row seen. */
  function Seen(columns: seq<CursorColumn>, rows: seq<Row>, l: nat, n: nat): seq<Row> {
    if n == 0 then [] else Seen(columns, rows, l, n - 1) + Page(columns, rows, Seen(columns, rows, l, n - 1), l)
  }

  lemma {:induction false} WhereAfter(columns: seq<CursorColumn>, rows: seq<Row>, k: nat, n: nat)
    requires Ordered(columns, rows) && k < n <= |rows|
    ensures Where(AfterRow(columns, rows[k]), rows[..n]) == rows[k + 1..n]
  {
    hide Later, Tuple, Meets, ClauseUpTo;
    var row := rows[n - 1];
    assert rows[..n][..n - 1] == rows[..n - 1] && rows[..n][n - 1] == row;
    PredicateMeansOrder(columns, Tuple(columns, rows[k]), true, row);
    if k < n - 1 {
      WhereAfter(columns, rows, k, n - 1);
      assert Later(columns, Tuple(columns, rows[n - 1]), Tuple(columns, rows[k]));
      assert rows[k + 1..n] == rows[k + 1..n - 1] + [row];
    } else {
      LaterIrreflexive(columns, Tuple(columns, row));
      WhereNotAfter(columns, rows, k, n - 1);
    }
  }

  lemma {:induction false} WhereNotAfter(columns: seq<CursorColumn>, rows: seq<Row>, k: nat, n: nat)
    requires Ordered(columns, rows) && n <= k < |rows|
    ensures Where(AfterRow(columns, rows[k]), rows[..n]) == []
  {
    hide Later, Tuple, Meets, ClauseUpTo;
    if n > 0 {
      WhereNotAfter(columns, rows, k, n - 1);
      var row := rows[n - 1];
      assert rows[..n][..n - 1] == rows[..n - 1] && rows[..n][n - 1] == row;
      PredicateMeansOrder(columns, Tuple(columns, rows[k]), true, row);
      NeverBoth(columns, Tuple(columns, rows[k]), Tuple(columns, row));
    }
  }

  lemma NeverBoth(columns: seq<CursorColumn>, a: seq<Value>, b: seq<Value>)
    requires |a| == |b| == |columns| && Later(columns, a, b)
    ensures !Later(columns, b, a)
  {
    hide Later;
    if Later(columns, b, a) { LaterTransitive(columns, a, b, a); LaterIrreflexive(columns, a); }
  }

  function Least(a: nat, b: nat): nat { if a <= b then a else b }

  /** The page after the first k rows is the next l of them. */
  lemma NextPage(columns: seq<CursorColumn>, rows: seq<Row>, k: nat, l: nat)
    requires Ordered(columns, rows) && k <= |rows|
    ensures Page(columns, rows, rows[..k], l) == rows[k..Least(k + l, |rows|)]
  {
    hide Ordered, AfterRow, Where;
    assert rows[..|rows|] == rows && rows[0..] == rows;
    if k > 0 {
      WhereAfter(columns, rows, k - 1, |rows|);
      assert rows[..k][k - 1] == rows[k - 1];
    }
    assert Page(columns, rows, rows[..k], l) == Limit(rows[k..], l);
  }

  /** Keyset pagination: after n pages of l >= 1 rows, exactly the first n * l rows of a
      tie-free result set have been seen, once each and in order; the next page is
      empty exactly when all have. */
  lemma {:induction false} PagingVisitsOnce(columns: seq<CursorColumn>, rows: seq<Row>, l: nat, n: nat)
    requires Ordered(columns, rows) && l >= 1
    ensures Seen(columns, rows, l, n) == rows[..Least(n * l, |rows|)]
    ensures Page(columns, rows, Seen(columns, rows, l, n), l) == [] <==> n * l >= |rows|
  {
    hide Ordered, Page;
    if n > 0 {
      var k := Least((n - 1) * l, |rows|);
      PagingVisitsOnce(columns, rows, l, n - 1);
      NextPage(columns, rows, k, l);
      assert n * l == (n - 1) * l + l;
      assert rows[..k] + rows[k..Least(k + l, |rows|)] == rows[..Least(k + l, |rows|)];
    }
    NextPage(columns, rows, Least(n * l, |rows|), l);
  }
}
