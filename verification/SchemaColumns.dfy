/** The column steps of a complete comparison turn the current columns into the
    desired ones, and there are none exactly when the columns already agree. */
module SchemaColumns {
  import opened Text
  import opened SchemaModel
  import opened SchemaDiff
  import opened SchemaMeaning

  // ------------------------------------------------------------- looking names up

  /** With simple names only, the key map and the name map are one. */
  lemma {:induction false} FindColumnMeans(cs: seq<Column>, k: string)
    requires BadColumns(cs) == {}
    ensures FindColumn(cs, k).Some? <==> k in Columns(cs)
    ensures FindColumn(cs, k).Some?
            ==> FindColumn(cs, k).value.name == k && Columns(cs)[k] == ColumnMean(FindColumn(cs, k).value)
  {
    hide ColumnMean;
    if cs != [] {
      var c := cs[|cs| - 1];
      GoodPrefix(cs);
      SimpleNameIsItsKey(c.name);
      FindColumnMeans(cs[..|cs| - 1], k);
    }
  }

  lemma GoodPrefix(cs: seq<Column>)
    requires cs != [] && BadColumns(cs) == {}
    ensures BadColumns(cs[..|cs| - 1]) == {} && SimpleName(cs[|cs| - 1].name)
    ensures FindColumn(cs[..|cs| - 1], cs[|cs| - 1].name).None?
  {
    var c := cs[|cs| - 1];
    assert NameKey(c.name) !in BadColumns(cs);
    SimpleNameIsItsKey(c.name);
  }

  lemma {:induction false} GoodAt(cs: seq<Column>, n: nat)
    requires n < |cs| && BadColumns(cs) == {}
    ensures BadColumns(cs[..n]) == {} && SimpleName(cs[n].name) && NameKey(cs[n].name) == cs[n].name
    ensures cs[n].name !in Columns(cs[..n])
    decreases |cs|
  {
    hide SimpleName, NameKey, BadColumns;
    GoodPrefix(cs);
    if n == |cs| - 1 {
      SimpleNameIsItsKey(cs[n].name);
      FindColumnMeans(cs[..n], cs[n].name);
    } else {
      GoodAt(cs[..|cs| - 1], n);
      assert cs[..|cs| - 1][..n] == cs[..n];
    }
  }

  lemma ColumnsOneMore(cs: seq<Column>, n: nat)
    requires n < |cs|
    ensures Columns(cs[..n + 1]) == Columns(cs[..n])[cs[n].name := ColumnMean(cs[n])]
  {
    hide ColumnMean;
    assert cs[..n + 1][..n] == cs[..n];
  }

  // ---------------------------------------------------------- one column at a time

  lemma AddColumnEffect(table: string, c: Column, m: map<string, ColumnMeaning>)
    ensures ApplyColumn(AddColumnStep(table, c), m) == m[c.name := ColumnMean(c)]
  {
    hide NormalizeType, ColumnDefault;
  }

  /** Altering one existing column. */
  lemma AlterColumnEffect(table: string, prior: Column, c: Column, m: map<string, ColumnMeaning>)
    requires c.name in m && m[c.name] == ColumnMean(prior)
    requires NoUnknown(DefaultSteps(table, prior, c))
    ensures Fold(DefaultSteps(table, prior, c) + TypeSteps(table, prior, c) + NullSteps(table, prior, c), m,
            ApplyColumn)
         == m[c.name := ColumnMean(c)]
  {
    hide NormalizeType, ColumnDefault, Fold;
    var d, t, u := DefaultSteps(table, prior, c), TypeSteps(table, prior, c), NullSteps(table, prior, c);
    var n := c.name;
    FoldAppend(d + t, u, m, ApplyColumn);
    FoldAppend(d, t, m, ApplyColumn);
    var m1 := m[n := m[n].(state := ColumnDefault(c).state, expression := ColumnDefault(c).expression)];
    assert Fold(d, m, ApplyColumn) == m1 by { DefaultEffect(table, prior, c, m); }
    var m2 := m1[n := m1[n].(typ := NormalizeType(c.typ))];
    assert Fold(t, m1, ApplyColumn) == m2 by { TypeEffect(table, prior, c, m1); }
    assert Fold(u, m2, ApplyColumn) == m2[n := m2[n].(nullable := c.nullable)] by { NullEffect(table, prior, c, m2); }
  }

  lemma DefaultEffect(table: string, prior: Column, c: Column, m: map<string, ColumnMeaning>)
    requires c.name in m && m[c.name].state == ColumnDefault(prior).state
             && m[c.name].expression == ColumnDefault(prior).expression
    requires NoUnknown(DefaultSteps(table, prior, c))
    ensures Fold(DefaultSteps(table, prior, c), m, ApplyColumn)
         == m[c.name := m[c.name].(state := ColumnDefault(c).state, expression := ColumnDefault(c).expression)]
  {
    hide ColumnDefault;
    var a, b, steps := ColumnDefault(prior), ColumnDefault(c), DefaultSteps(table, prior, c);
    MarkerKnown(true, UnknownStep(table, c.name, "").(currentDefault := Some(a), desiredDefault := Some(b)));
    if a.state != b.state || a.expression != b.expression { FoldOne(steps[0], m, ApplyColumn); }
  }

  lemma TypeEffect(table: string, prior: Column, c: Column, m: map<string, ColumnMeaning>)
    requires c.name in m && m[c.name].typ == NormalizeType(prior.typ)
    ensures Fold(TypeSteps(table, prior, c), m, ApplyColumn) == m[c.name := m[c.name].(typ := NormalizeType(c.typ))]
  {
    hide NormalizeType;
    if TypeSteps(table, prior, c) != [] { FoldOne(TypeSteps(table, prior, c)[0], m, ApplyColumn); }
  }

  lemma NullEffect(table: string, prior: Column, c: Column, m: map<string, ColumnMeaning>)
    requires c.name in m && m[c.name].nullable == prior.nullable
    ensures Fold(NullSteps(table, prior, c), m, ApplyColumn) == m[c.name := m[c.name].(nullable := c.nullable)]
  {
    if NullSteps(table, prior, c) != [] { FoldOne(NullSteps(table, prior, c)[0], m, ApplyColumn); }
  }

  lemma DesiredColumnEffect(a: Table, b: Table, n: nat)
    requires n < |b.columns| && AmbiguousColumns(a, b) == {} && NoUnknown(DesiredColumnSteps(a, b, b.columns[n]))
    ensures Fold(DesiredColumnSteps(a, b, b.columns[n]), Columns(a.columns) + Columns(b.columns[..n]), ApplyColumn)
         == Columns(a.columns) + Columns(b.columns[..n + 1])
  {
    hide ColumnMean, DefaultSteps, TypeSteps, NullSteps, BadColumns, NameKey, SimpleName, Columns, FindColumn;
    var c := b.columns[n];
    var m := Columns(a.columns) + Columns(b.columns[..n]);
    BadParts(a, b);
    GoodAt(b.columns, n);
    FindColumnMeans(a.columns, c.name);
    ColumnsOneMore(b.columns, n);
    assert Columns(a.columns) + Columns(b.columns[..n + 1]) == m[c.name := ColumnMean(c)];
    match FindColumn(a.columns, c.name) {
      case None =>
        var mark := Marker(ColumnDefault(c).state == DefaultUnknown, UnknownStep(b.name, c.name, ""));
        NoUnknownAppend(mark, [AddColumnStep(b.name, c)]);
        MarkerKnown(ColumnDefault(c).state == DefaultUnknown, UnknownStep(b.name, c.name, ""));
        assert mark + [AddColumnStep(b.name, c)] == [AddColumnStep(b.name, c)];
        FoldOne(AddColumnStep(b.name, c), m, ApplyColumn);
        AddColumnEffect(b.name, c, m);
      case Some(prior) =>
        var d, t, u := DefaultSteps(b.name, prior, c), TypeSteps(b.name, prior, c), NullSteps(b.name, prior, c);
        NoUnknownAppend(d + t, u);
        NoUnknownAppend(d, t);
        assert c.name in m && m[c.name] == ColumnMean(prior);
        AlterColumnEffect(b.name, prior, c, m);
    }
  }

  lemma BadParts(a: Table, b: Table)
    requires AmbiguousColumns(a, b) == {}
    ensures BadColumns(a.columns) == {} && BadColumns(b.columns) == {}
  {
  }

  lemma {:induction false} DesiredColumnsEffect(a: Table, b: Table, n: nat)
    requires n <= |b.columns| && AmbiguousColumns(a, b) == {} && NoUnknown(DesiredColumnsUpTo(a, b, n))
    ensures Fold(DesiredColumnsUpTo(a, b, n), Columns(a.columns), ApplyColumn)
            == Columns(a.columns) + Columns(b.columns[..n])
  {
    hide DesiredColumnSteps, AmbiguousColumns, ColumnMean;
    if n > 0 {
      var init, last := DesiredColumnsUpTo(a, b, n - 1), DesiredColumnSteps(a, b, b.columns[n - 1]);
      NoUnknownAppend(init, last);
      DesiredColumnsEffect(a, b, n - 1);
      FoldAppend(init, last, Columns(a.columns), ApplyColumn);
      DesiredColumnEffect(a, b, n - 1);
    }
  }

  // --------------------------------------------------------------- columns left over

  /** The map once the leftover columns among the first n are gone. */
  function Pruned(a: Table, b: Table, n: nat): map<string, ColumnMeaning>
    requires n <= |a.columns|
  {
    (Columns(a.columns) + Columns(b.columns)) - (Columns(a.columns[..n]).Keys - Columns(b.columns).Keys)
  }

  lemma CurrentColumnEffect(a: Table, b: Table, n: nat)
    requires n < |a.columns| && AmbiguousColumns(a, b) == {} && NoUnknown(CurrentColumnSteps(a, b, a.columns[n]))
    ensures Fold(CurrentColumnSteps(a, b, a.columns[n]), Pruned(a, b, n), ApplyColumn) == Pruned(a, b, n + 1)
  {
    hide ColumnMean, BadColumns, NameKey, SimpleName, Columns, FindColumn;
    var c := a.columns[n];
    BadParts(a, b);
    GoodAt(a.columns, n);
    FindColumnMeans(b.columns, c.name);
    ColumnsOneMore(a.columns, n);
    if c.name !in Columns(b.columns) {
      var mark := Marker(ColumnDefault(c).state == DefaultUnknown, UnknownStep(b.name, c.name, ""));
      var drop := Plain(DropColumn, b.name).(column := c.name);
      NoUnknownAppend(mark, [drop]);
      MarkerKnown(ColumnDefault(c).state == DefaultUnknown, UnknownStep(b.name, c.name, ""));
      assert mark + [drop] == [drop];
      FoldOne(drop, Pruned(a, b, n), ApplyColumn);
    }
  }

  lemma {:induction false} CurrentColumnsEffect(a: Table, b: Table, n: nat)
    requires n <= |a.columns| && AmbiguousColumns(a, b) == {} && NoUnknown(CurrentColumnsUpTo(a, b, n))
    ensures Fold(CurrentColumnsUpTo(a, b, n), Columns(a.columns) + Columns(b.columns), ApplyColumn) == Pruned(a, b, n)
  {
    hide CurrentColumnSteps, AmbiguousColumns, ColumnMean, Pruned;
    var m := Columns(a.columns) + Columns(b.columns);
    if n > 0 {
      var init, last := CurrentColumnsUpTo(a, b, n - 1), CurrentColumnSteps(a, b, a.columns[n - 1]);
      NoUnknownAppend(init, last);
      CurrentColumnsEffect(a, b, n - 1);
      FoldAppend(init, last, m, ApplyColumn);
      CurrentColumnEffect(a, b, n - 1);
    } else {
      PrunedStart(a, b);
    }
  }

  lemma PrunedStart(a: Table, b: Table)
    ensures Pruned(a, b, 0) == Columns(a.columns) + Columns(b.columns)
    ensures Pruned(a, b, |a.columns|) == Columns(b.columns)
  {
    hide ColumnMean;
    assert a.columns[..|a.columns|] == a.columns && Columns(a.columns[..0]) == map[];
  }

  /** A complete comparison's column steps produce exactly the desired columns. */
  lemma ColumnsSound(a: Table, b: Table)
    requires AmbiguousColumns(a, b) == {}
    requires NoUnknown(DesiredColumnsUpTo(a, b, |b.columns|)) && NoUnknown(CurrentColumnsUpTo(a, b, |a.columns|))
    ensures Fold(DesiredColumnsUpTo(a, b, |b.columns|) + CurrentColumnsUpTo(a, b, |a.columns|), Columns(a.columns),
            ApplyColumn)
         == Columns(b.columns)
  {
    hide AmbiguousColumns, ColumnMean, Pruned, DesiredColumnsUpTo, CurrentColumnsUpTo, Fold, Columns;
    DesiredColumnsEffect(a, b, |b.columns|);
    assert b.columns[..|b.columns|] == b.columns;
    CurrentColumnsEffect(a, b, |a.columns|);
    PrunedStart(a, b);
    FoldAppend(DesiredColumnsUpTo(a, b, |b.columns|), CurrentColumnsUpTo(a, b, |a.columns|), Columns(a.columns),
        ApplyColumn);
  }

  // ------------------------------------------------------- nothing to do, or nothing known

  lemma {:induction false} ColumnIsMeant(cs: seq<Column>, n: nat)
    requires n < |cs| && BadColumns(cs) == {}
    ensures cs[n].name in Columns(cs) && Columns(cs)[cs[n].name] == ColumnMean(cs[n])
  {
    hide ColumnMean, BadColumns, SimpleName, NameKey;
    GoodPrefix(cs);
    if n < |cs| - 1 {
      ColumnIsMeant(cs[..|cs| - 1], n);
      FindColumnMeans(cs[..|cs| - 1], cs[|cs| - 1].name);
    }
  }

  lemma QuietColumn(a: Table, b: Table, n: nat)
    requires n < |b.columns| && AmbiguousColumns(a, b) == {} && Columns(a.columns) == Columns(b.columns)
    requires NoUnknown(DesiredColumnSteps(a, b, b.columns[n]))
    ensures DesiredColumnSteps(a, b, b.columns[n]) == []
  {
    hide NormalizeType, BadColumns, NameKey, SimpleName, Columns, FindColumn, ColumnDefault;
    var c := b.columns[n];
    BadParts(a, b);
    GoodAt(b.columns, n);
    ColumnIsMeant(b.columns, n);
    FindColumnMeans(a.columns, c.name);
    var prior := FindColumn(a.columns, c.name).value;
    var d, t, u := DefaultSteps(b.name, prior, c), TypeSteps(b.name, prior, c), NullSteps(b.name, prior, c);
    NoUnknownAppend(d + t, u);
    NoUnknownAppend(d, t);
    MarkerKnown(true, UnknownStep(b.name, c.name, "").(currentDefault := Some(ColumnDefault(prior)),
        desiredDefault := Some(ColumnDefault(c))));
  }

  lemma {:induction false} QuietColumns(a: Table, b: Table, n: nat)
    requires n <= |b.columns| && AmbiguousColumns(a, b) == {} && Columns(a.columns) == Columns(b.columns)
    requires NoUnknown(DesiredColumnsUpTo(a, b, n))
    ensures DesiredColumnsUpTo(a, b, n) == []
  {
    hide DesiredColumnSteps, AmbiguousColumns, Columns;
    if n > 0 {
      NoUnknownAppend(DesiredColumnsUpTo(a, b, n - 1), DesiredColumnSteps(a, b, b.columns[n - 1]));
      QuietColumns(a, b, n - 1);
      QuietColumn(a, b, n - 1);
    }
  }

  lemma ColumnStays(a: Table, b: Table, n: nat)
    requires n < |a.columns| && AmbiguousColumns(a, b) == {} && Columns(a.columns) == Columns(b.columns)
    ensures CurrentColumnSteps(a, b, a.columns[n]) == []
  {
    hide BadColumns, NameKey, SimpleName, Columns, FindColumn, ColumnDefault;
    BadParts(a, b);
    GoodAt(a.columns, n);
    ColumnIsMeant(a.columns, n);
    FindColumnMeans(b.columns, a.columns[n].name);
  }

  lemma {:induction false} NoColumnsLeft(a: Table, b: Table, n: nat)
    requires n <= |a.columns| && AmbiguousColumns(a, b) == {} && Columns(a.columns) == Columns(b.columns)
    ensures CurrentColumnsUpTo(a, b, n) == []
  {
    hide CurrentColumnSteps, AmbiguousColumns, Columns;
    if n > 0 {
      NoColumnsLeft(a, b, n - 1);
      ColumnStays(a, b, n - 1);
    }
  }

  /** In a complete comparison, no column step means equal columns and conversely. */
  lemma ColumnsQuiet(a: Table, b: Table)
    requires AmbiguousColumns(a, b) == {}
    requires NoUnknown(DesiredColumnsUpTo(a, b, |b.columns|)) && NoUnknown(CurrentColumnsUpTo(a, b, |a.columns|))
    ensures Columns(a.columns) == Columns(b.columns)
       <==> DesiredColumnsUpTo(a, b, |b.columns|) + CurrentColumnsUpTo(a, b, |a.columns|) == []
  {
    hide AmbiguousColumns, DesiredColumnsUpTo, CurrentColumnsUpTo, Columns;
    if Columns(a.columns) == Columns(b.columns) {
      QuietColumns(a, b, |b.columns|);
      NoColumnsLeft(a, b, |a.columns|);
    } else {
      ColumnsSound(a, b);
    }
  }

  predicate DefaultsKnown(cs: seq<Column>) {
    forall i :: 0 <= i < |cs| ==> ColumnDefault(cs[i]).state != DefaultUnknown
  }

  lemma {:induction false} FoundColumnIsThere(cs: seq<Column>, k: string)
    ensures FindColumn(cs, k).Some? ==> FindColumn(cs, k).value in cs
  {
    hide NameKey;
    if cs != [] { FoundColumnIsThere(cs[..|cs| - 1], k); }
  }

  lemma KnownColumnSteps(a: Table, b: Table, c: Column)
    requires DefaultsKnown(a.columns) && ColumnDefault(c).state != DefaultUnknown
    ensures NoUnknown(DesiredColumnSteps(a, b, c)) && NoUnknown(CurrentColumnSteps(a, b, c))
  {
    hide NormalizeType, BadColumns, NameKey, SimpleName, FindColumn, ColumnDefault;
    FoundColumnIsThere(a.columns, NameKey(c.name));
  }

  lemma {:induction false} KnownColumnsUpTo(a: Table, b: Table, n: nat, m: nat)
    requires n <= |b.columns| && m <= |a.columns| && DefaultsKnown(a.columns) && DefaultsKnown(b.columns)
    ensures NoUnknown(DesiredColumnsUpTo(a, b, n)) && NoUnknown(CurrentColumnsUpTo(a, b, m))
  {
    hide DesiredColumnSteps, CurrentColumnSteps, ColumnDefault;
    if n > 0 {
      KnownColumnsUpTo(a, b, n - 1, m);
      KnownColumnSteps(a, b, b.columns[n - 1]);
      NoUnknownAppend(DesiredColumnsUpTo(a, b, n - 1), DesiredColumnSteps(a, b, b.columns[n - 1]));
    } else if m > 0 {
      KnownColumnsUpTo(a, b, 0, m - 1);
      KnownColumnSteps(a, b, a.columns[m - 1]);
      NoUnknownAppend(CurrentColumnsUpTo(a, b, m - 1), CurrentColumnSteps(a, b, a.columns[m - 1]));
    }
  }
}
