/** Whole tables and drift on every plan, and the text and scope comparisons that the
    exact steps rest on. */
module SchemaPartialDrift {
  import opened Text
  import opened SchemaModel
  import opened SchemaDiff
  import opened SchemaMeaning
  import opened SchemaTables
  import opened SchemaTheorems
  import opened SchemaPartial

  // ------------------------------------------------------------------- type texts

  function Run(s: string): (n: nat)
    ensures n <= |s|
  {
    if s == "" || IsSpace(s[0]) then 0 else 1 + Run(s[1..])
  }

  /** strings.Fields: the maximal runs without space. */
  function Words(s: string): seq<string>
    decreases |s|
  {
    if s == "" then []
    else if IsSpace(s[0]) then Words(s[1..])
    else [s[..Run(s)]] + Words(s[Run(s)..])
  }

  /** strings.Join with one blank. */
  function Join(words: seq<string>): string {
    if words == [] then "" else if |words| == 1 then words[0] else words[0] + " " + Join(words[1..])
  }

  lemma {:induction false} TrimLeftWords(s: string)
    ensures Words(TrimLeftSpace(s)) == Words(s)
    decreases |s|
  {
    if s != "" && IsSpace(s[0]) { TrimLeftWords(s[1..]); }
  }

  lemma {:induction false} LastSpaceWords(s: string)
    requires s != "" && IsSpace(s[|s| - 1])
    ensures Words(s[..|s| - 1]) == Words(s)
    decreases |s|
  {
    var t := s[..|s| - 1];
    if IsSpace(s[0]) {
      if |s| > 1 {
        LastSpaceWords(s[1..]);
        assert s[1..][..|s| - 2] == t[1..];
      } else { assert s[1..] == "" && t == ""; }
    } else {
      RunStops(s);
      var r := s[Run(s)..];
      LastSpaceWords(r);
      assert t[Run(s)..] == r[..|r| - 1] && t[..Run(s)] == s[..Run(s)];
    }
  }

  lemma {:induction false} RunStops(s: string)
    requires s != "" && IsSpace(s[|s| - 1])
    ensures Run(s) < |s| && Run(s[..|s| - 1]) == Run(s)
    decreases |s|
  {
    if !IsSpace(s[0]) {
      RunStops(s[1..]);
      assert s[..|s| - 1][1..] == s[1..][..|s| - 2];
    }
  }

  lemma {:induction false} TrimRightWords(s: string)
    ensures Words(TrimRightSpace(s)) == Words(s)
    decreases |s|
  {
    if s != "" && IsSpace(s[|s| - 1]) {
      TrimRightWords(s[..|s| - 1]);
      LastSpaceWords(s);
    }
  }

  lemma {:induction false} EndsInWord(s: string)
    requires s != "" && !IsSpace(s[|s| - 1])
    ensures Words(s) != []
    decreases |s|
  {
    if IsSpace(s[0]) { EndsInWord(s[1..]); }
  }

  lemma WordEnds(s: string)
    requires |s| > 1 && !IsSpace(s[0]) && IsSpace(s[1])
    ensures Words(s) == [[s[0]]] + Words(s[1..])
  {
    assert Run(s[1..]) == 0 && Run(s) == 1 && s[..1] == [s[0]];
  }

  lemma WordGoesOn(s: string)
    requires |s| > 1 && !IsSpace(s[0]) && !IsSpace(s[1])
    ensures Words(s[1..]) != [] && Words(s) == [[s[0]] + Words(s[1..])[0]] + Words(s[1..])[1..]
  {
    var n := Run(s[1..]);
    assert s[n + 1..] == s[1..][n..] && s[..n + 1] == [s[0]] + s[1..][..n];
  }

  lemma JoinFirst(word: string, words: seq<string>)
    requires words != []
    ensures Join([word] + words) == word + " " + Join(words)
  {
    assert ([word] + words)[1..] == words;
  }

  lemma JoinStarts(word: string, more: string, rest: seq<string>)
    ensures Join([word + more] + rest) == word + Join([more] + rest)
  {
    hide Join;
    if rest == [] {
      assert [word + more] + rest == [word + more] && [more] + rest == [more];
      JoinOne(word + more);
      JoinOne(more);
    } else {
      JoinFirst(word + more, rest);
      JoinFirst(more, rest);
      assert word + more + " " + Join(rest) == word + (more + " " + Join(rest));
    }
  }

  lemma JoinOne(word: string)
    ensures Join([word]) == word
  {
  }

  lemma JoinLonger(c: char, words: seq<string>)
    requires words != []
    ensures Join([[c] + words[0]] + words[1..]) == [c] + Join(words)
    ensures Join([[c]] + words) == [c] + (" " + Join(words))
  {
    hide Join;
    assert words == [words[0]] + words[1..];
    JoinStarts([c], words[0], words[1..]);
    JoinFirst([c], words);
    assert [c] + " " + Join(words) == [c] + (" " + Join(words));
  }

  /** A text without space at its end squeezes to its words, after one blank if it
      starts with space. */
  lemma {:induction false} SqueezeJoins(s: string)
    requires s != "" && !IsSpace(s[|s| - 1])
    ensures Squeeze(s) == (if IsSpace(s[0]) then " " else "") + Join(Words(s))
    decreases |s|
  {
    hide Join, Run;
    if |s| == 1 {
      OneLetter(s);
    } else {
      SqueezeJoins(s[1..]);
      EndsInWord(s[1..]);
      SqueezeNext(s);
    }
  }

  lemma SqueezeNext(s: string)
    requires |s| > 1 && Words(s[1..]) != []
    requires Squeeze(s[1..]) == (if IsSpace(s[1]) then " " else "") + Join(Words(s[1..]))
    ensures Squeeze(s) == (if IsSpace(s[0]) then " " else "") + Join(Words(s))
  {
    hide Join, Run;
    var rest := Words(s[1..]);
    JoinLonger(s[0], rest);
    if IsSpace(s[0]) {
      assert Words(s) == rest;
    } else {
      hide Words;
      if IsSpace(s[1]) { WordEnds(s); } else { WordGoesOn(s); }
    }
  }

  lemma OneLetter(s: string)
    requires |s| == 1 && !IsSpace(s[0])
    ensures Squeeze(s) == s && Join(Words(s)) == s
  {
    assert s[1..] == "" && Run(s) == 1 && s[..1] == s;
  }

  lemma {:induction false} TrimmedEnd(s: string)
    ensures TrimRightSpace(s) == "" || !IsSpace(TrimRightSpace(s)[|TrimRightSpace(s)| - 1])
    ensures TrimRightSpace(s) <= s
  {
    if s != "" && IsSpace(s[|s| - 1]) { TrimmedEnd(s[..|s| - 1]); }
  }

  lemma {:induction false} TrimmedStart(s: string)
    ensures TrimLeftSpace(s) == "" || !IsSpace(TrimLeftSpace(s)[0])
  {
    if s != "" && IsSpace(s[0]) { TrimmedStart(s[1..]); }
  }

  /** normalizeType: the lower-case words, one blank between them. */
  lemma NormalizedWords(s: string)
    ensures NormalizeType(s) == ToLower(Join(Words(s)))
  {
    hide Squeeze;
    var left := TrimLeftSpace(s);
    TrimLeftWords(s);
    TrimRightWords(left);
    TrimmedStart(s);
    TrimmedEnd(left);
    var t := TrimSpace(s);
    if t != "" { SqueezeJoins(t); } else { NothingSqueezes(); }
  }

  lemma NothingSqueezes()
    ensures Squeeze("") == "" && Join(Words("")) == ""
  {
  }

  // ----------------------------------------------------------------------- scopes

  lemma KnownIsDistinct(c: Option<Context>)
    ensures ContextKnown(c) ==> c.Some? && DistinctBy(c.value.tables, Self)
  {
    hide SimpleName;
  }

  /** Equal scopes: both known, of one dialect, namespace and kind, naming the same tables. */
  lemma SameScopeMeans(a: Option<Context>, b: Option<Context>)
    ensures SameScope(a, b) <==>
            && ContextKnown(a) && ContextKnown(b)
            && a.value.dialect == b.value.dialect && a.value.catalog == b.value.catalog
            && a.value.schema == b.value.schema && a.value.scope == b.value.scope
            && forall name :: name in a.value.tables <==> name in b.value.tables
  {
    hide ContextKnown, SortBy;
    KnownIsDistinct(a);
    KnownIsDistinct(b);
    if ContextKnown(a) && ContextKnown(b) {
      var x, y := a.value.tables, b.value.tables;
      SortBySorted(x, Self);
      SortBySorted(y, Self);
      SameElements(SortBy(x, Self), x);
      SameElements(SortBy(y, Self), y);
      if forall name :: name in x <==> name in y { SortedUnique(SortBy(x, Self), SortBy(y, Self), Self); }
    }
  }

  // ------------------------------------------------------------------ whole tables

  predicate Lists(context: Option<Context>) {
    context.Some? && context.value.coverage.tables == Complete && context.value.visibility == "declared"
  }

  lemma InventoriesMean(current: Schema, desired: Schema)
    ensures Inventories(current, desired) <==>
            SameScope(current.context, desired.context) && Lists(current.context) && Lists(desired.context)
  {
  }

  /** Table j of the desired schema is the only one of its object, and has no partner. */
  predicate New(current: Schema, desired: Schema, j: nat) {
    && j < |desired.tables| && SimpleName(desired.tables[j].name)
    && (forall k :: 0 <= k < |desired.tables| && SameObject(desired.tables[k], desired.tables[j]) ==> k == j)
    && (forall k :: 0 <= k < |current.tables| ==> !SameObject(current.tables[k], desired.tables[j]))
  }

  predicate Gone(current: Schema, desired: Schema, i: nat) {
    && i < |current.tables|
    && (forall k :: 0 <= k < |current.tables| && SameObject(current.tables[k], current.tables[i]) ==> k == i)
    && (forall k :: 0 <= k < |desired.tables| ==> !SameObject(desired.tables[k], current.tables[i]))
  }

  predicate AddsTable(steps: seq<Step>, t: Table) {
    exists k :: 0 <= k < |steps| && !steps[k].unknown && steps[k].kind == AddTable && steps[k].desiredTable == Some(t)
  }

  predicate DropsTable(steps: seq<Step>, t: Table) {
    exists k :: 0 <= k < |steps| && !steps[k].unknown && steps[k].kind == DropTable && steps[k].currentTable == Some(t)
  }

  lemma WholeIn(kind: StepKind, known: bool, t: Table, s: Step)
    requires (kind.AddTable? || kind.DropTable?) && s in WholeTable(kind, known, t) && !s.unknown
    ensures known && s.kind == kind
    ensures kind.AddTable? ==> s.desiredTable == Some(t) && s.currentTable.None?
    ensures kind.DropTable? ==> s.currentTable == Some(t) && s.desiredTable.None?
  {
    hide TableDiagnostics;
    DiagnosticsAreMarkers(t);
  }

  lemma WholeHas(kind: StepKind, t: Table) returns (s: Step)
    requires kind.AddTable? || kind.DropTable?
    ensures s in WholeTable(kind, true, t) && !s.unknown && s.kind == kind
    ensures kind.AddTable? ==> s.desiredTable == Some(t)
    ensures kind.DropTable? ==> s.currentTable == Some(t)
  {
    hide TableDiagnostics;
    s := WholeTable(kind, true, t)[0];
  }

  lemma NewPartners(current: Schema, desired: Schema, j: nat)
    requires New(current, desired, j)
    ensures j < |desired.tables|
    ensures var k := TableKey(desired.tables[j]);
            && WithKey(current.tables, k) == [] && WithKey(desired.tables, k) == [desired.tables[j]]
            && WithKey(desired.tables[..j], k) == []
  {
    hide TableKey, SameObject, SimpleName;
    var b := desired.tables[j];
    SameObjectIsSameKey(b, b);
    forall m | 0 <= m < |current.tables| ensures TableKey(current.tables[m]) != TableKey(b) {
      SameObjectIsSameKey(current.tables[m], b);
    }
    forall m | 0 <= m < |desired.tables| && TableKey(desired.tables[m]) == TableKey(b) ensures m == j {
      SameObjectIsSameKey(desired.tables[m], b);
    }
    NoPartner(current.tables, TableKey(b));
    OnlyPartner(desired.tables, j, TableKey(b));
  }

  lemma GonePartners(current: Schema, desired: Schema, i: nat)
    requires Gone(current, desired, i)
    ensures i < |current.tables|
    ensures var k := TableKey(current.tables[i]);
            && WithKey(desired.tables, k) == [] && WithKey(current.tables, k) == [current.tables[i]]
            && WithKey(current.tables[..i], k) == []
  {
    hide TableKey, SameObject;
    var a := current.tables[i];
    SameObjectIsSameKey(a, a);
    forall m | 0 <= m < |desired.tables| ensures TableKey(desired.tables[m]) != TableKey(a) {
      SameObjectIsSameKey(desired.tables[m], a);
    }
    forall m | 0 <= m < |current.tables| && TableKey(current.tables[m]) == TableKey(a) ensures m == i {
      SameObjectIsSameKey(current.tables[m], a);
    }
    NoPartner(desired.tables, TableKey(a));
    OnlyPartner(current.tables, i, TableKey(a));
  }

  /** Table steps come from the tables' own entries. */
  lemma TableStepsIn(current: Schema, desired: Schema, s: Step)
    requires !s.unknown && (s.kind == AddTable || s.kind == DropTable)
    ensures s in DiffSteps(current, desired) <==>
            || (exists k :: 0 <= k < |desired.tables| && s in DesiredTableSteps(current, desired, k))
            || (exists k :: 0 <= k < |current.tables| && s in CurrentTableSteps(current, desired, k))
  {
    hide DesiredTablesUpTo, CurrentTablesUpTo, DesiredTableSteps, CurrentTableSteps, Inventories, ContextKnown,
         ContextCoverageKnown;
    DesiredTablesIn(current, desired, |desired.tables|, s);
    CurrentTablesIn(current, desired, |current.tables|, s);
  }

  lemma DesiredWhole(current: Schema, desired: Schema, k: nat, s: Step)
    requires k < |desired.tables| && !s.unknown && (s.kind == AddTable || s.kind == DropTable)
    requires s in DesiredTableSteps(current, desired, k)
    ensures var next := desired.tables[k];
            && s.kind == AddTable && s.desiredTable == Some(next) && WithKey(current.tables, TableKey(next)) == []
            && Inventories(current, desired) && InScope(next, desired.context)
  {
    hide TableKey, SimpleName, MatchedSteps, WholeTable, Inventories, InScope, WithKey;
    var next := desired.tables[k];
    var prior := WithKey(current.tables, TableKey(next));
    var known := Inventories(current, desired) && InScope(next, desired.context);
    if |prior| == 1 && s in MatchedSteps(current, desired, prior[0], next) {
      NoTableSteps(current, desired, prior[0], next, s);
    }
    if s in WholeTable(AddTable, known, next) { WholeIn(AddTable, known, next, s); }
  }

  lemma NoTableSteps(current: Schema, desired: Schema, a: Table, b: Table, s: Step)
    requires s in MatchedSteps(current, desired, a, b) && !s.unknown
    ensures s.kind != AddTable && s.kind != DropTable
  {
    hide MatchedSteps;
    MatchedAllGrounded(current, desired, a, b);
  }

  /** For every pair of schemas: a new table is definite exactly when the scopes are
      equal, both sides list all their tables, and the desired context covers it. */
  lemma NewTableExactly(current: Schema, desired: Schema, j: nat)
    requires New(current, desired, j)
    ensures AddsTable(DiffSteps(current, desired), desired.tables[j]) <==>
            && SameScope(current.context, desired.context) && Lists(current.context) && Lists(desired.context)
            && Placed(desired.tables[j], desired.context)
  {
    hide DiffSteps, DesiredTableSteps, CurrentTableSteps, TableKey, SimpleName, New, WithKey, WholeTable, Placed,
         InScope,
         Inventories, MatchedSteps, Lists, SameScope;
    InventoriesMean(current, desired);
    NewPartners(current, desired, j);
    var b, steps := desired.tables[j], DiffSteps(current, desired);
    PlacedIsInScope(b, desired.context);
    var known := Inventories(current, desired) && InScope(b, desired.context);
    NewTableSteps(current, desired, j);
    if known {
      var s := WholeHas(AddTable, b);
      TableStepsIn(current, desired, s);
      var k :| 0 <= k < |steps| && steps[k] == s;
    }
    if AddsTable(steps, b) {
      var k :| 0 <= k < |steps| && !steps[k].unknown && steps[k].kind == AddTable && steps[k].desiredTable == Some(b);
      AddedIsKnown(current, desired, steps[k]);
    }
  }

  lemma NewTableSteps(current: Schema, desired: Schema, j: nat)
    requires New(current, desired, j) && j < |desired.tables|
    ensures DesiredTableSteps(current, desired, j)
            == WholeTable(AddTable, Inventories(current, desired) && InScope(desired.tables[j], desired.context),
                desired.tables[j])
  {
    hide TableKey, SimpleName, WithKey, WholeTable, InScope, Inventories, MatchedSteps;
    NewPartners(current, desired, j);
    NewIsSimple(current, desired, j);
  }

  lemma NewIsSimple(current: Schema, desired: Schema, j: nat)
    requires New(current, desired, j)
    ensures j < |desired.tables| && SimpleName(desired.tables[j].name)
  {
    hide SimpleName, SameObject;
  }

  lemma AddedIsKnown(current: Schema, desired: Schema, s: Step)
    requires s in DiffSteps(current, desired) && !s.unknown && s.kind == AddTable && s.desiredTable.Some?
    ensures Inventories(current, desired) && InScope(s.desiredTable.value, desired.context)
  {
    hide DiffSteps, DesiredTableSteps, CurrentTableSteps, Inventories, InScope, TableKey;
    TableStepsIn(current, desired, s);
    if k :| 0 <= k < |desired.tables| && s in DesiredTableSteps(current, desired, k) {
      DesiredWhole(current, desired, k, s);
    } else {
      var k :| 0 <= k < |current.tables| && s in CurrentTableSteps(current, desired, k);
      NotFromCurrent(current, desired, k, s);
    }
  }

  lemma DroppedIsKnown(current: Schema, desired: Schema, s: Step)
    requires s in DiffSteps(current, desired) && !s.unknown && s.kind == DropTable && s.currentTable.Some?
    ensures Inventories(current, desired) && InScope(s.currentTable.value, current.context)
  {
    hide DiffSteps, DesiredTableSteps, Inventories, InScope, TableKey, WholeTable, WithKey;
    TableStepsIn(current, desired, s);
    if k :| 0 <= k < |desired.tables| && s in DesiredTableSteps(current, desired, k) {
      DesiredWhole(current, desired, k, s);
    } else {
      var k :| 0 <= k < |current.tables| && s in CurrentTableSteps(current, desired, k);
      var prev := current.tables[k];
      var known := |WithKey(current.tables, TableKey(prev))| == 1 && Inventories(current, desired)
                   && InScope(prev, current.context);
      WholeIn(DropTable, known, prev, s);
    }
  }

  lemma GoneTableExactly(current: Schema, desired: Schema, i: nat)
    requires Gone(current, desired, i)
    ensures DropsTable(DiffSteps(current, desired), current.tables[i]) <==>
            && SameScope(current.context, desired.context) && Lists(current.context) && Lists(desired.context)
            && Placed(current.tables[i], current.context)
  {
    hide DiffSteps, DesiredTableSteps, TableKey, Gone, WithKey, WholeTable, Placed, InScope, Inventories, Lists,
         SameScope;
    InventoriesMean(current, desired);
    GonePartners(current, desired, i);
    var a, steps := current.tables[i], DiffSteps(current, desired);
    PlacedIsInScope(a, current.context);
    if Inventories(current, desired) && InScope(a, current.context) {
      var s := WholeHas(DropTable, a);
      assert s in CurrentTableSteps(current, desired, i);
      TableStepsIn(current, desired, s);
      var k :| 0 <= k < |steps| && steps[k] == s;
    }
    if DropsTable(steps, a) {
      var k :| 0 <= k < |steps| && !steps[k].unknown && steps[k].kind == DropTable && steps[k].currentTable == Some(a);
      DroppedIsKnown(current, desired, steps[k]);
    }
  }

  // ------------------------------------------------------------------------- drift

  /** A known column difference is reported as drift by every plan, complete or not. */
  lemma ColumnDifferenceDrifts(current: Schema, desired: Schema, i: nat, j: nat, p: nat, q: nat, name: string)
    requires Met(current, desired, i, j)
    requires Sole(current.tables[i].columns, p, name) && Sole(desired.tables[j].columns, q, name)
    requires var c, d := current.tables[i].columns[p], desired.tables[j].columns[q];
             NormalizeType(c.typ) != NormalizeType(d.typ) || c.nullable != d.nullable || DefaultsDiffer(c, d)
    ensures Drifted(DiffSteps(current, desired))
  {
    hide Met, Sole, DiffSteps, NormalizeType, DefaultsDiffer;
    SharedColumnExactly(current, desired, i, j, p, q, name);
  }

  function LegacyTable(typ: string): Table {
    Table(NO_IDENTITY, NO_COVERAGE, [], [], "t", [Column("c", typ, false, false, false, "", DefaultUnset, "")], [])
  }

  function LegacySchema(typ: string): Schema { Schema(None, [LegacyTable(typ)]) }

  /** Two schemas without context or identity still show a changed type, and drift. */
  lemma LegacyDifferenceIsKept()
    ensures HasStep(DiffSteps(LegacySchema("text"), LegacySchema("integer")), AlterColumnType, LegacyTable("text"),
                LegacyTable("integer"), "c")
    ensures Drifted(DiffSteps(LegacySchema("text"), LegacySchema("integer")))
    ensures Incomplete(DiffSteps(LegacySchema("text"), LegacySchema("integer")))
  {
    hide DiffSteps, NormalizeType, HasStep;
    var a, b := LegacySchema("text"), LegacySchema("integer");
    assert SimpleName("t") && SimpleName("c") by { assert NameChar('t') && NameChar('c'); }
    SimpleNameIsItsKey("c");
    assert a.tables[0].columns[0].name == "c" && b.tables[0].columns[0].name == "c";
    LegacyTypesDiffer();
    SharedColumnExactly(a, b, 0, 0, 0, 0, "c");
    ColumnDifferenceDrifts(a, b, 0, 0, 0, 0, "c");
    LegacyIsIncomplete(a, b);
  }

  lemma LegacyIsIncomplete(a: Schema, b: Schema)
    requires a.context.None?
    ensures Incomplete(DiffSteps(a, b))
  {
    hide DesiredTablesUpTo, CurrentTablesUpTo;
    assert !Inventories(a, b);
    assert DiffSteps(a, b)[0].unknown;
  }

  lemma LegacyTypesDiffer()
    ensures NormalizeType("text") != NormalizeType("integer")
  {
    hide NormalizeType, Words, Join;
    NormalizedWords("text");
    NormalizedWords("integer");
    OneWord("text");
    OneWord("integer");
    assert |ToLower("text")| == 4 && |ToLower("integer")| == 7;
  }

  lemma {:induction false} WholeRun(s: string)
    requires forall k :: 0 <= k < |s| ==> !IsSpace(s[k])
    ensures Run(s) == |s|
  {
    if s != "" { WholeRun(s[1..]); }
  }

  lemma OneWord(s: string)
    requires s != "" && forall k :: 0 <= k < |s| ==> !IsSpace(s[k])
    ensures Join(Words(s)) == s
  {
    WholeRun(s);
    assert s[|s|..] == "" && s[..|s|] == s;
  }
}
