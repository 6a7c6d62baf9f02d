/** One current table with indexes "Foo" and "foo" against one with "foo" alone: the
    plan is complete and empty, yet the schemas differ by the index "Foo". */
module SchemaCounterexample {
  import opened Text
  import opened SchemaModel
  import opened SchemaDiff
  import opened SchemaMeaning
  import opened SchemaColumns
  import opened SchemaIndexes
  import opened SchemaConstraints
  import opened SchemaTables
  import opened SchemaTheorems
  import SchemaComplete

  const FULL := SchemaCoverage(Complete, Complete, Complete, Complete, Complete, Complete, Complete)
  const SCOPE := Context("mysql", "def", "app", "namespace", [], "declared", FULL)
  const ID := Column("id", "bigint", false, true, false, "", DefaultNone, "")

  function OnId(name: string): Index {
    Index([], Expression("none", ""), "btree", [], "visible", Complete, name, ["id"], false, false, false, "")
  }

  function Users(indexes: seq<Index>): Table {
    Table(Identity("def", "app", "users", Complete), FULL, [], [], "users", [ID], indexes)
  }

  const CURRENT := Schema(Some(SCOPE), [Users([OnId("Foo"), OnId("foo")])])
  const DESIRED := Schema(Some(SCOPE), [Users([OnId("foo")])])

  lemma Names()
    ensures SimpleName("id") && SimpleName("foo") && SimpleName("def") && SimpleName("app") && SimpleName("users")
            && !SimpleName("Foo")
    ensures NameKey("Foo") == "foo" && NameKey("foo") == "foo"
  {
    assert !NameChar("Foo"[0]);
    SimpleNameIsItsKey("foo");
    assert ToLower("Foo") == "foo" by { assert LowerChar('F') == 'f' && LowerChar('o') == 'o'; }
    assert TrimSpace("Foo") == "Foo";
  }

  lemma OneColumn(t: Table)
    requires t.columns == [ID]
    ensures KnownColumns(["id"], t) && BadColumns(t.columns) == {} && DefaultsKnown(t.columns)
  {
    Names();
    assert t.columns[..0] == [];
    assert ColumnCount([], "id") == 0 && ColumnCount(t.columns, "id") == 1;
    assert BadColumns([]) == {} && FindColumn([], NameKey("id")) == None;
  }

  lemma FooIsValid(t: Table)
    requires t.columns == [ID] && (t.indexes == [OnId("Foo"), OnId("foo")] || t.indexes == [OnId("foo")])
    ensures ValidIndex(OnId("foo"), t) && FindIndex(t.indexes, "foo") == Some(OnId("foo"))
            && AttributesComplete(t.indexes)
  {
    hide KnownColumns, SimpleName, NameKey;
    Names();
    OneColumn(t);
    var n := |t.indexes| - 1;
    if n == 1 {
      assert t.indexes[..1] == [OnId("Foo")] && [OnId("Foo")][..0] == [];
      assert IndexCount([OnId("Foo")], "foo") == 0;
    } else {
      assert t.indexes[..0] == [];
    }
  }

  lemma NoIndexSteps(a: Table, b: Table)
    requires a.columns == [ID] && b.columns == [ID] && a.indexes == [OnId("Foo"), OnId("foo")]
             && b.indexes == [OnId("foo")]
    ensures IndexSteps(a, b) == [] && AttributesComplete(a.indexes) && AttributesComplete(b.indexes)
  {
    hide ValidIndex, FindIndex, NameKey, UniqueIndexName;
    Names();
    FooIsValid(a);
    FooIsValid(b);
    assert DesiredIndexSteps(a, b, OnId("foo")) == [];
    assert CurrentIndexSteps(a, b, OnId("foo")) == [] && CurrentIndexSteps(a, b, OnId("Foo")) == [];
    assert DesiredIndexesUpTo(a, b, 1) == []
           && CurrentIndexesUpTo(a, b, 2) == CurrentIndexesUpTo(a, b, 1) == CurrentIndexesUpTo(a, b, 0);
  }

  lemma NoConstraints(t: Table)
    requires t.foreignKeys == [] && t.checks == []
    ensures !AmbiguousConstraints(t) && SchemaComplete.ItemsUsable(FkItems(t, t.foreignKeys))
            && SchemaComplete.ItemsUsable(CheckItems(t.checks))
  {
  }

  lemma PairIsKnown(a: Table, b: Table)
    requires a == CURRENT.tables[0] && b == DESIRED.tables[0]
    ensures PairKnown(CURRENT, DESIRED, a, b) && NoUnknown(MatchedSteps(CURRENT, DESIRED, a, b))
            && TableKey(a) == TableKey(b)
    ensures SimpleName(b.name) && Inventories(CURRENT, DESIRED) && HeaderSteps(CURRENT, DESIRED) == []
  {
    hide SimpleName, DiffTable, IndexSteps, DesiredColumnsUpTo, CurrentColumnsUpTo, BadColumns, KnownColumns,
         AmbiguousConstraints, FkItems, CheckItems, SchemaComplete.ItemsUsable, AttributesComplete, DefaultsKnown,
         DiffConstraints, MatchedSteps;
    Names();
    NoIndexSteps(a, b);
    OneColumn(a);
    OneColumn(b);
    NoConstraints(a);
    NoConstraints(b);
    var p := PairOf(CURRENT, DESIRED, a, b);
    MatchedMeans(CURRENT, DESIRED, a, b);
    DiffTableParts(a, b);
    KnownColumnsUpTo(a, b, 1, 1);
    NoUnknownAppend(DesiredColumnsUpTo(a, b, 1), CurrentColumnsUpTo(a, b, 1));
    NoUnknownAppend(AmbiguityMark(a, b) + ColumnSteps(a, b), IndexSteps(a, b));
    NoUnknownAppend(AmbiguityMark(a, b), ColumnSteps(a, b));
    SchemaComplete.AttachKnown(p, DiffTable(a, b));
    SchemaComplete.DiffConstraintsKnown(p);
    NoUnknownAppend(AttachAll(p, DiffTable(a, b)), DiffConstraints(p));
  }

  /** The documented promise fails: a complete plan that does not reach the desired schema. */
  lemma SharedIndexKeyIsMissed()
    ensures !Incomplete(DiffSteps(CURRENT, DESIRED))
    ensures Apply(DiffSteps(CURRENT, DESIRED), Meaning(CURRENT)) != Meaning(DESIRED)
  {
    hide SimpleName, MatchedSteps, TableKey, NameKey, Fold, TablesMean, HeaderSteps;
    var a, b := CURRENT.tables[0], DESIRED.tables[0];
    PairIsKnown(a, b);
    Names();
    assert CURRENT.tables[..0] == [] && DESIRED.tables[..0] == [];
    assert WithKey(CURRENT.tables, TableKey(b)) == [a] && WithKey(DESIRED.tables, TableKey(b)) == [b];
    assert DesiredTableSteps(CURRENT, DESIRED, 0) == MatchedSteps(CURRENT, DESIRED, a, b);
    assert CurrentTableSteps(CURRENT, DESIRED, 0) == [];
    assert DiffSteps(CURRENT, DESIRED) == MatchedSteps(CURRENT, DESIRED, a, b);
    assert NameKey(a.indexes[0].name) == NameKey(a.indexes[1].name);
    assert !MatchedKeysDistinct(CURRENT, DESIRED);
    DiffSound(CURRENT, DESIRED);
  }
}
