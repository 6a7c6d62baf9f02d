/** What a built preflight plan asks for, step by step and from the step's own fields:
    which doubts it records, which counts it demands, and when a count may be taken. */
module PreflightRequirements {
  import opened Text
  import opened SchemaModel
  import opened SchemaDiff
  import opened PreflightPlan
  import PreflightCanon
  import opened PreflightEvidence
  import opened PreflightRuns

  // ---------------------------------------------------- what a step speaks about

  /** The ends of a step: its table now and as desired (the first of that name), the
      index (the last of that name) and the foreign key it names on the desired side. */
  datatype Ends = Ends(found: bool, now: Table, wanted: bool, want: Table, index: Option<Index>,
                       key: Option<ForeignKey>)

  predicate Names(ts: seq<Table>, name: string, t: Table, found: bool) {
    if found then
      exists k :: 0 <= k < |ts| && ts[k] == t && t.name == name && forall j :: 0 <= j < k ==> ts[j].name != name
    else t == ZERO_TABLE && forall k :: 0 <= k < |ts| ==> ts[k].name != name
  }

  predicate NamesIndex(xs: seq<Index>, name: string, x: Option<Index>) {
    if x.None? then forall k :: 0 <= k < |xs| ==> xs[k].name != name
    else
      exists k :: 0 <= k < |xs| && xs[k] == x.value && x.value.name == name
                  && forall j :: k < j < |xs| ==> xs[j].name != name
  }

  predicate NamesKey(xs: seq<ForeignKey>, name: string, x: Option<ForeignKey>) {
    if x.None? then forall k :: 0 <= k < |xs| ==> xs[k].name != name
    else
      exists k :: 0 <= k < |xs| && xs[k] == x.value && x.value.name == name
                  && forall j :: k < j < |xs| ==> xs[j].name != name
  }

  predicate Fits(q: Plan, i: nat, e: Ends)
    requires i < |q.steps|
  {
    var d := q.steps[i].definition;
    && Names(q.current.tables, d.table, e.now, e.found)
    && Names(q.desired.tables, d.table, e.want, e.wanted)
    && NamesIndex(if e.wanted then e.want.indexes else [], d.index, e.index)
    && NamesKey(if e.wanted then e.want.foreignKeys else [], d.constraint, e.key)
  }

  function EndsOf(q: Plan, i: nat): Ends
    requires i < |q.steps|
  {
    var d := q.steps[i].definition;
    var (t, found) := TableFor(q.current.tables, d.table);
    var (u, wanted) := TableFor(q.desired.tables, d.table);
    Ends(found, t, wanted, u, if wanted then IndexNamed(u.indexes, d.index) else None,
         if wanted then ForeignKeyNamed(u.foreignKeys, d.constraint) else None)
  }

  lemma {:induction false} TableForMeans(ts: seq<Table>, name: string)
    ensures Names(ts, name, TableFor(ts, name).0, TableFor(ts, name).1)
  {
    if ts != [] {
      var init := ts[..|ts| - 1];
      TableForMeans(init, name);
      var (t, found) := TableFor(init, name);
      if found {
        var k :| 0 <= k < |init| && init[k] == t && t.name == name && forall j :: 0 <= j < k ==> init[j].name != name;
        assert ts[k] == t;
      } else {
        assert forall k :: 0 <= k < |init| ==> ts[k] == init[k];
        assert ts[|ts| - 1].name == name ==> ts[|ts| - 1] == TableFor(ts, name).0;
      }
    }
  }

  lemma {:induction false} IndexNamedMeans(xs: seq<Index>, name: string)
    ensures NamesIndex(xs, name, IndexNamed(xs, name))
  {
    if xs != [] {
      var init := xs[..|xs| - 1];
      IndexNamedMeans(init, name);
      assert forall k :: 0 <= k < |init| ==> xs[k] == init[k];
    }
  }

  lemma {:induction false} KeyNamedMeans(xs: seq<ForeignKey>, name: string)
    ensures NamesKey(xs, name, ForeignKeyNamed(xs, name))
  {
    if xs != [] {
      var init := xs[..|xs| - 1];
      KeyNamedMeans(init, name);
      assert forall k :: 0 <= k < |init| ==> xs[k] == init[k];
    }
  }

  lemma NamesOnce(ts: seq<Table>, name: string, t: Table, found: bool, u: Table, other: bool)
    requires Names(ts, name, t, found) && Names(ts, name, u, other)
    ensures t == u && found == other
  {
  }

  lemma NamesIndexOnce(xs: seq<Index>, name: string, x: Option<Index>, y: Option<Index>)
    requires NamesIndex(xs, name, x) && NamesIndex(xs, name, y)
    ensures x == y
  {
  }

  lemma NamesKeyOnce(xs: seq<ForeignKey>, name: string, x: Option<ForeignKey>, y: Option<ForeignKey>)
    requires NamesKey(xs, name, x) && NamesKey(xs, name, y)
    ensures x == y
  {
  }

  /** Every step has exactly one set of ends. */
  lemma EndsAreUnique(q: Plan, i: nat, e: Ends)
    requires i < |q.steps|
    ensures Fits(q, i, e) <==> e == EndsOf(q, i)
  {
    hide Names, NamesIndex, NamesKey, TableFor, IndexNamed, ForeignKeyNamed;
    var d := q.steps[i].definition;
    var (t, found) := TableFor(q.current.tables, d.table);
    var (u, wanted) := TableFor(q.desired.tables, d.table);
    var xs, fs := if wanted then u.indexes else [], if wanted then u.foreignKeys else [];
    TableForMeans(q.current.tables, d.table);
    TableForMeans(q.desired.tables, d.table);
    IndexNamedMeans(xs, d.index);
    KeyNamedMeans(fs, d.constraint);
    assert IndexNamed([], d.index) == None && ForeignKeyNamed([], d.constraint) == None by { EmptyNames(d); }
    if Fits(q, i, e) {
      NamesOnce(q.current.tables, d.table, t, found, e.now, e.found);
      NamesOnce(q.desired.tables, d.table, u, wanted, e.want, e.wanted);
      NamesIndexOnce(xs, d.index, IndexNamed(xs, d.index), e.index);
      NamesKeyOnce(fs, d.constraint, ForeignKeyNamed(fs, d.constraint), e.key);
    }
  }

  lemma EmptyNames(d: Definition)
    ensures IndexNamed([], d.index) == None && ForeignKeyNamed([], d.constraint) == None
  {
  }

  // ------------------------------------------------------------ what is asked, raw

  /** One to sixteen simple names, none twice, each the name of exactly one column. */
  predicate Listed(cols: seq<string>, t: Table) {
    && 0 < |cols| <= 16 && SimpleAndDistinct(cols)
    && forall i :: 0 <= i < |cols| ==> OneColumn(t.columns, cols[i])
  }

  predicate OneColumn(cs: seq<Column>, name: string) {
    exists k :: 0 <= k < |cs| && cs[k].name == name && forall l :: 0 <= l < |cs| && cs[l].name == name ==> l == k
  }

  function Doubt(target: Identity, code: string): Requirement {
    Requirement(Blank, Blank, "unknown", target, [], NO_IDENTITY, [], "unknown", "unknown", code)
  }

  /** A step to NOT NULL, a step of a unique index, a step of a foreign key. */
  predicate ToNotNull(d: Definition) { d.kind == Known(AlterNullability) && d.nullable == Some(false) }

  predicate OfIndex(d: Definition) { d.kind == Known(AddIndex) || d.kind == Known(AlterIndex) }

  predicate OfKey(d: Definition) { d.kind == Known(AddForeignKey) || d.kind == Known(AlterForeignKey) }

  predicate OfObject(d: Definition) {
    d.kind in {Known(DropTable), Known(DropColumn), RenameColumn, Known(AlterColumnType), Known(AddTable),
               Known(AddColumn)}
  }

  /** Doubts about the plan, the phase and the images a step carries. */
  predicate PlanDoubted(q: Plan, i: nat, e: Ends, code: string)
    requires i < |q.steps|
  {
    var d, phase := q.steps[i].definition, q.steps[i].phase;
    || (code == "PREFLIGHT_DEFINITION"
        && (q.incomplete || d.sql != "" || q.sql != "" || q.statements != []
            || (d.currentTable.Some? && d.currentTable.value != e.now)
            || (d.desiredTable.Some? && d.desiredTable.value != e.want)))
    || (code == "PREFLIGHT_PHASE" && phase.phase !in {"expand", "backfill", "contract"})
    || (code == "PREFLIGHT_COMPATIBILITY" && (phase.oldReaders != "compatible" || phase.oldWriters != "compatible"))
    || (code == "PREFLIGHT_DEPENDENCY" && i > 0 && phase.phase == "contract" && phase.dependsOn == [])
  }

  /** What the kind of a definite step adds. */
  predicate KindDoubted(d: Definition, phase: string, e: Ends, code: string) {
    || (code == "PREFLIGHT_DEFINITION"
        && (|| (d.kind == Known(AlterNullability) && d.nullable.None?)
            || (OfIndex(d) && (e.index.None? || (d.desiredIndex.Some? && d.desiredIndex != e.index)))
            || (OfKey(d) && e.key.None?)))
    || (code == "PREFLIGHT_PHASE" && ToNotNull(d) && phase != "contract")
    || (code == "PREFLIGHT_EXTERNAL_WORK" && OfObject(d))
  }

  /** A step of unknown comparison is doubted for that, and asked nothing of its kind. */
  predicate Doubted(q: Plan, i: nat, e: Ends, code: string)
    requires i < |q.steps|
  {
    var d, phase := q.steps[i].definition, q.steps[i].phase.phase;
    || PlanDoubted(q, i, e, code)
    || (d.unknown && code == "PREFLIGHT_DEFINITION")
    || (!d.unknown && (KindDoubted(d, phase, e, code) || (code == "PREFLIGHT_EXTERNAL_WORK" && phase == "backfill")))
  }

  /** NULLs can be counted: both tables are there, the desired column is known to be NOT
      NULL and the current table has that column. */
  predicate NullsCountable(d: Definition, e: Ends) {
    && e.found && e.wanted && Listed([d.column], e.now)
    && exists k :: 0 <= k < |e.want.columns| && e.want.columns[k].name == d.column
                   && e.want.columns[k].nullableKnown && !e.want.columns[k].nullable
  }

  function IndexColumns(x: Index): (r: seq<string>)
    ensures x.keys == [] ==> r == x.columns
    ensures x.keys != [] ==> |r| == |x.keys| && forall k :: 0 <= k < |r| ==> r[k] == x.keys[k].column
  {
    if x.keys == [] then x.columns else seq(|x.keys|, k requires 0 <= k < |x.keys| => x.keys[k].column)
  }

  /** Duplicates can be counted: a valid index of plain whole columns over every row. */
  predicate DuplicatesCountable(x: Index, e: Ends) {
    && e.found && ValidExtendedIndex(x, e.want) && x.filter.state == "none" && x.included == [] && x.raw == ""
    && (forall k :: 0 <= k < |x.keys| ==> x.keys[k].expression == "" && x.keys[k].prefix == 0)
    && Listed(IndexColumns(x), e.now)
  }

  /** Orphans can be counted: a valid MATCH SIMPLE key over columns of the current table. */
  predicate OrphansCountable(f: ForeignKey, e: Ends) {
    && e.found && ValidForeignKey(f, e.want) && f.matching == "simple" && Listed(f.columns, e.now)
    && |f.referenced| <= 16
  }

  function Status(pending: bool, otherwise: string): string { if pending then "pending" else otherwise }

  function Code(pending: bool, otherwise: string): string { if pending then "PREFLIGHT_MISSING" else otherwise }

  function NullCount(d: Definition, e: Ends): Requirement {
    var b := NullsCountable(d, e);
    Requirement(Blank, Blank, "null_count", e.now.identity, [d.column], NO_IDENTITY, [], "null_rows",
                Status(b, "unknown"), Code(b, "PREFLIGHT_DEFINITION"))
  }

  function DuplicateCount(x: Index, e: Ends): Requirement {
    var b := DuplicatesCountable(x, e);
    Requirement(Blank, Blank, "duplicate_count", e.now.identity, IndexColumns(x), NO_IDENTITY, [],
                "duplicate_groups_nonnull", Status(b, "unsupported"), Code(b, "PREFLIGHT_UNSUPPORTED"))
  }

  function OrphanCount(f: ForeignKey, e: Ends): Requirement {
    var b := OrphansCountable(f, e);
    Requirement(Blank, Blank, "orphan_count", e.now.identity, f.columns, f.reference, f.referenced,
                "match_simple_nonnull_rows", Status(b, "unsupported"), Code(b, "PREFLIGHT_UNSUPPORTED"))
  }

  /** The one count a definite step demands, or the note that its kind has none. */
  predicate Counted(d: Definition, e: Ends, r: Requirement) {
    && !d.unknown
    && (|| (ToNotNull(d) && r == NullCount(d, e))
        || (OfIndex(d) && e.index.Some? && e.index.value.unique && r == DuplicateCount(e.index.value, e))
        || (OfKey(d) && e.key.Some? && r == OrphanCount(e.key.value, e))
        || (d.kind != Known(AlterNullability) && !OfIndex(d) && !OfKey(d) && !OfObject(d)
            && r == Doubt(e.now.identity, "PREFLIGHT_UNSUPPORTED").(status := "unsupported")))
  }

  predicate Asks(q: Plan, i: nat, e: Ends, r: Requirement)
    requires i < |q.steps|
  {
    (r == Doubt(e.now.identity, r.code) && Doubted(q, i, e, r.code)) || Counted(q.steps[i].definition, e, r)
  }

  // -------------------------------------------------------- requirementsFor is that

  lemma {:induction false} NoColumnCounted(cs: seq<Column>, name: string)
    ensures ColumnCount(cs, name) == 0 <==> forall k :: 0 <= k < |cs| ==> cs[k].name != name
  {
    if cs != [] {
      var init := cs[..|cs| - 1];
      NoColumnCounted(init, name);
      assert forall k :: 0 <= k < |init| ==> cs[k] == init[k];
    }
  }

  lemma OneColumnNext(cs: seq<Column>, name: string)
    requires cs != []
    ensures var init := cs[..|cs| - 1];
            OneColumn(cs, name) <==>
              if cs[|cs| - 1].name == name then forall k :: 0 <= k < |init| ==> init[k].name != name
              else OneColumn(init, name)
  {
    var n := |cs| - 1;
    var init := cs[..n];
    assert forall k :: 0 <= k < n ==> cs[k] == init[k];
    if OneColumn(init, name) && cs[n].name != name {
      var k :| 0 <= k < n && init[k].name == name && forall l :: 0 <= l < n && init[l].name == name ==> l == k;
      assert cs[k].name == name;
    }
  }

  lemma NoneIsNotOne(name: string)
    ensures !OneColumn([], name)
  {
  }

  lemma {:induction false} ColumnCountMeans(cs: seq<Column>, name: string)
    ensures ColumnCount(cs, name) == 1 <==> OneColumn(cs, name)
  {
    hide OneColumn;
    if cs != [] {
      var init := cs[..|cs| - 1];
      ColumnCountMeans(init, name);
      NoColumnCounted(init, name);
      OneColumnNext(cs, name);
    } else {
      NoneIsNotOne(name);
    }
  }

  lemma ListedMeans(cols: seq<string>, t: Table)
    ensures ColumnsOk(cols, t) <==> Listed(cols, t)
  {
    hide ColumnCount, OneColumn, SimpleAndDistinct;
    forall i | 0 <= i < |cols| ensures ColumnCount(t.columns, cols[i]) == 1 <==> OneColumn(t.columns, cols[i]) {
      ColumnCountMeans(t.columns, cols[i]);
    }
  }

  lemma {:induction false} KeyNamesMean(keys: seq<IndexKey>)
    ensures |KeyNames(keys)| == |keys| && forall k :: 0 <= k < |keys| ==> KeyNames(keys)[k] == keys[k].column
  {
    if keys != [] { KeyNamesMean(keys[..|keys| - 1]); }
  }

  lemma NullAsks(d: Definition, phase: string, e: Ends, r: Requirement)
    requires d.kind == Known(AlterNullability) && !d.unknown
    ensures r in NullRequirements(d, phase, e.now, e.found, e.want, e.wanted) <==>
              || (d.nullable.None? && r == Doubt(e.now.identity, "PREFLIGHT_DEFINITION"))
              || (ToNotNull(d) && phase != "contract" && r == Doubt(e.now.identity, "PREFLIGHT_PHASE"))
              || Counted(d, e, r)
  {
    hide ColumnsOk, Listed;
    ListedMeans([d.column], e.now);
  }

  lemma UniqueAsks(d: Definition, e: Ends, r: Requirement)
    requires OfIndex(d) && !d.unknown && e.index == if e.wanted then IndexNamed(e.want.indexes, d.index) else None
    ensures r in UniqueRequirements(d, e.now, e.found, e.want, e.wanted) <==>
              || ((e.index.None? || (d.desiredIndex.Some? && d.desiredIndex != e.index))
                  && r == Doubt(e.now.identity, "PREFLIGHT_DEFINITION"))
              || Counted(d, e, r)
  {
    hide IndexNamed, UniqueRequirement, DuplicateCount;
    if e.index.Some? { UniqueMeans(e.index.value, e); }
  }

  lemma UniqueMeans(x: Index, e: Ends)
    ensures UniqueRequirement(x, e.now, e.found, e.want) == DuplicateCount(x, e)
  {
    hide ColumnsOk, Listed, ValidExtendedIndex, KeyNames, IndexColumns;
    KeyNamesMean(x.keys);
    assert (if x.keys != [] then KeyNames(x.keys) else x.columns) == IndexColumns(x);
    ListedMeans(IndexColumns(x), e.now);
  }

  lemma OrphanAsks(d: Definition, e: Ends, r: Requirement)
    requires OfKey(d) && !d.unknown
    requires e.key == if e.wanted then ForeignKeyNamed(e.want.foreignKeys, d.constraint) else None
    ensures r in OrphanRequirements(d, e.now, e.found, e.want, e.wanted) <==>
              (e.key.None? && r == Doubt(e.now.identity, "PREFLIGHT_DEFINITION")) || Counted(d, e, r)
  {
    hide ColumnsOk, Listed, ForeignKeyNamed, ValidForeignKey;
    if e.key.Some? { ListedMeans(e.key.value.columns, e.now); }
  }

  lemma KindAsks(d: Definition, phase: string, e: Ends, r: Requirement)
    requires !d.unknown && e.index == if e.wanted then IndexNamed(e.want.indexes, d.index) else None
    requires e.key == if e.wanted then ForeignKeyNamed(e.want.foreignKeys, d.constraint) else None
    ensures r in KindRequirements(d, phase, e.now, e.found, e.want, e.wanted) <==>
              (r == Doubt(e.now.identity, r.code) && KindDoubted(d, phase, e, r.code)) || Counted(d, e, r)
  {
    hide NullRequirements, UniqueRequirements, OrphanRequirements, IndexNamed, ForeignKeyNamed, NullCount, OrphanCount;
    hide DuplicateCount;
    if d.kind == Known(AlterNullability) { NullAsks(d, phase, e, r); }
    if OfIndex(d) { UniqueAsks(d, e, r); }
    if OfKey(d) { OrphanAsks(d, e, r); }
  }

  lemma BaseIsDoubt(e: Ends)
    ensures Base(e.now) == Doubt(e.now.identity, "PREFLIGHT_DEFINITION")
    ensures Base(e.now).(code := "PREFLIGHT_DEFINITION") == Base(e.now)
  {
  }

  lemma Appended(a: seq<Requirement>, b: bool, e: Ends, code: string, r: Requirement)
    ensures r in a + When(b, Base(e.now).(code := code)) <==> r in a || (b && r == Doubt(e.now.identity, code))
  {
  }

  lemma PhaseMeans(s: string)
    ensures PhaseRank(s) == 0 <==> s !in {"expand", "backfill", "contract"}
  {
  }

  /** The doubts of a step in the order they are recorded: about its phase first. */
  function PhaseDoubts(q: Plan, i: nat, e: Ends): seq<Requirement>
    requires i < |q.steps|
  {
    var phase := q.steps[i].phase;
    When(q.incomplete, Base(e.now))
    + When(PhaseRank(phase.phase) == 0, Base(e.now).(code := "PREFLIGHT_PHASE"))
    + When(phase.oldReaders != "compatible" || phase.oldWriters != "compatible",
           Base(e.now).(code := "PREFLIGHT_COMPATIBILITY"))
    + When(i > 0 && phase.phase == "contract" && phase.dependsOn == [],
           Base(e.now).(code := "PREFLIGHT_DEPENDENCY"))
  }

  function Doubts(q: Plan, i: nat, e: Ends): seq<Requirement>
    requires i < |q.steps|
  {
    var d := q.steps[i].definition;
    PhaseDoubts(q, i, e)
    + When(d.sql != "" || q.sql != "" || q.statements != [], Base(e.now))
    + When(d.currentTable.Some? && d.currentTable.value != e.now, Base(e.now))
    + When(d.desiredTable.Some? && d.desiredTable.value != e.want, Base(e.now))
  }

  lemma PhaseDoubtsMean(q: Plan, i: nat, e: Ends, r: Requirement)
    requires i < |q.steps|
    ensures var phase := q.steps[i].phase;
            r in PhaseDoubts(q, i, e) <==>
              r == Doubt(e.now.identity, r.code) && (
                || (r.code == "PREFLIGHT_DEFINITION" && q.incomplete)
                || (r.code == "PREFLIGHT_PHASE" && phase.phase !in {"expand", "backfill", "contract"})
                || (r.code == "PREFLIGHT_COMPATIBILITY"
                    && (phase.oldReaders != "compatible" || phase.oldWriters != "compatible"))
                || (r.code == "PREFLIGHT_DEPENDENCY" && i > 0 && phase.phase == "contract" && phase.dependsOn == []))
  {
    hide PhaseRank;
    PhaseMeans(q.steps[i].phase.phase);
  }

  lemma DoubtsMean(q: Plan, i: nat, e: Ends, r: Requirement)
    requires i < |q.steps|
    ensures r in Doubts(q, i, e) <==> r == Doubt(e.now.identity, r.code) && PlanDoubted(q, i, e, r.code)
  {
    hide PhaseDoubts;
    PhaseDoubtsMean(q, i, e, r);
  }

  lemma UnknownCountsNothing(d: Definition, e: Ends, r: Requirement)
    ensures d.unknown ==> !Counted(d, e, r)
  {
  }

  lemma StepAsks(q: Plan, i: nat, r: Requirement)
    requires i < |q.steps|
    ensures r in RequirementsFor(q, i) <==> Asks(q, i, EndsOf(q, i), r)
  {
    hide TableFor, IndexNamed, ForeignKeyNamed, KindRequirements, When, Base, Counted, PhaseRank, OfIndex, OfKey;
    hide OfObject, ToNotNull, KindDoubted, PlanDoubted, Doubts;
    var e, s := EndsOf(q, i), q.steps[i];
    var doubts, kinds :=
      Doubts(q, i, e), KindRequirements(s.definition, s.phase.phase, e.now, e.found, e.want, e.wanted);
    InParts(q, i);
    BaseIsDoubt(e);
    DoubtsMean(q, i, e, r);
    UnknownCountsNothing(s.definition, e, r);
    if !s.definition.unknown {
      KindAsks(s.definition, s.phase.phase, e, r);
      Appended(doubts + kinds, s.phase.phase == "backfill", e, "PREFLIGHT_EXTERNAL_WORK", r);
    }
  }

  lemma InParts(q: Plan, i: nat)
    requires i < |q.steps|
    ensures var e, s := EndsOf(q, i), q.steps[i];
            RequirementsFor(q, i) ==
              if s.definition.unknown then Doubts(q, i, e) + [Base(e.now)]
              else
                Doubts(q, i, e) + KindRequirements(s.definition, s.phase.phase, e.now, e.found, e.want, e.wanted)
                + When(s.phase.phase == "backfill", Base(e.now).(code := "PREFLIGHT_EXTERNAL_WORK"))
  {
    hide TableFor, IndexNamed, ForeignKeyNamed, KindRequirements, When, Base, PhaseRank;
  }

  // --------------------------------------------------------- what a built plan holds

  function Named(r: Requirement, stepId: Digest): Requirement {
    r.(stepId := stepId, id := RequirementDigest(r.(stepId := stepId)))
  }

  function Bare(x: Requirement): Requirement { x.(id := Blank, stepId := Blank) }

  lemma {:induction false} IdentifiedMeans(rs: seq<Requirement>, stepId: Digest, x: Requirement)
    ensures x in Identified(rs, stepId) <==> exists r :: r in rs && x == Named(r, stepId)
  {
    if rs != [] {
      var init, last := rs[..|rs| - 1], rs[|rs| - 1];
      IdentifiedMeans(init, stepId, x);
      assert rs == init + [last] && last in rs;
      assert Identified(rs, stepId) == Identified(init, stepId) + [Named(last, stepId)];
      if x in Identified(init, stepId) {
        var r :| r in init && x == Named(r, stepId);
        assert r in rs;
      }
    }
  }

  lemma SameAsks(p: Plan, q: Plan, i: nat)
    requires i < |p.steps| && i < |q.steps| && p.current == q.current && p.desired == q.desired
    requires p.incomplete == q.incomplete && p.sql == q.sql && p.statements == q.statements
    requires p.steps[i].definition == q.steps[i].definition && p.steps[i].phase == q.steps[i].phase
    ensures RequirementsFor(p, i) == RequirementsFor(q, i) && EndsOf(p, i) == EndsOf(q, i)
  {
    hide TableFor, IndexNamed, ForeignKeyNamed, KindRequirements, When, Base, PhaseRank;
  }

  function StepId(p: Plan, k: nat): Digest
    requires k < |p.steps|
  {
    StepDigest(p.id, k, p.steps[k])
  }

  ghost predicate AskedBy(p: Plan, k: nat, x: Requirement)
    requires k < |p.steps|
  {
    exists r :: r in RequirementsFor(p, k) && x == Named(r, StepId(p, k))
  }

  lemma {:induction false} NumberSteps(p: Plan, n: nat)
    requires n <= |p.steps|
    ensures Number(p, n) == p.(steps := Number(p, n).steps, requirements := Number(p, n).requirements)
    ensures forall k :: 0 <= k < n ==> Number(p, n).steps[k] == p.steps[k].(id := StepId(p, k))
    ensures forall k :: n <= k < |p.steps| ==> Number(p, n).steps[k] == p.steps[k]
  {
    hide RequirementsFor, Identified;
    if n > 0 { NumberSteps(p, n - 1); }
  }

  lemma {:induction false} NumberAsks(p: Plan, n: nat, x: Requirement)
    requires n <= |p.steps| && p.requirements == []
    ensures x in Number(p, n).requirements <==> exists k :: 0 <= k < n && AskedBy(p, k, x)
  {
    hide RequirementsFor, Identified;
    if n > 0 {
      NumberAsks(p, n - 1, x);
      NumberSteps(p, n - 1);
      var q := Number(p, n - 1);
      var id := StepDigest(q.id, n - 1, q.steps[n - 1]);
      var named := q.(steps := q.steps[n - 1 := q.steps[n - 1].(id := id)]);
      SameAsks(p, named, n - 1);
      IdentifiedMeans(RequirementsFor(p, n - 1), id, x);
      assert x in Number(p, n).requirements <==> x in q.requirements || AskedBy(p, n - 1, x);
    }
  }

  lemma AsksBlank(q: Plan, i: nat, e: Ends, r: Requirement)
    requires i < |q.steps| && Asks(q, i, e, r)
    ensures r.id == Blank && r.stepId == Blank
  {
    hide NullsCountable, DuplicatesCountable, OrphansCountable, Doubted;
  }

  /** The step behind a step ID. */
  lemma NumberOwns(p: Plan, i: nat, x: Requirement)
    requires i < |p.steps| && p.requirements == []
    ensures var q := Number(p, |p.steps|);
            x in q.requirements && x.stepId == q.steps[i].id <==> AskedBy(p, i, x)
  {
    hide RequirementsFor;
    NumberAsks(p, |p.steps|, x);
    NumberSteps(p, |p.steps|);
  }

  lemma AskedMeans(p: Plan, i: nat, x: Requirement)
    requires i < |p.steps|
    ensures AskedBy(p, i, x) <==>
              && x.stepId == StepId(p, i) && x.id == RequirementDigest(x.(id := Blank))
              && Asks(p, i, EndsOf(p, i), Bare(x))
  {
    hide RequirementsFor, Asks, EndsOf;
    if AskedBy(p, i, x) {
      var r :| r in RequirementsFor(p, i) && x == Named(r, StepId(p, i));
      StepAsks(p, i, r);
      AsksBlank(p, i, EndsOf(p, i), r);
      assert Bare(x) == r;
    }
    if x.stepId == StepId(p, i) && x.id == RequirementDigest(x.(id := Blank)) && Asks(p, i, EndsOf(p, i), Bare(x)) {
      StepAsks(p, i, Bare(x));
      assert x == Named(Bare(x), StepId(p, i));
    }
  }

  lemma SameAsking(p: Plan, q: Plan, i: nat, r: Requirement)
    requires i < |p.steps| && i < |q.steps| && p.current == q.current && p.desired == q.desired
    requires p.incomplete == q.incomplete && p.sql == q.sql && p.statements == q.statements
    requires p.steps[i].definition == q.steps[i].definition && p.steps[i].phase == q.steps[i].phase
    ensures Asks(p, i, EndsOf(p, i), r) <==> Asks(q, i, EndsOf(q, i), r)
  {
    hide RequirementsFor, Asks, EndsOf;
    SameAsks(p, q, i);
    StepAsks(p, i, r);
    StepAsks(q, i, r);
  }

  lemma NumberedExactly(p: Plan, i: nat, x: Requirement)
    requires i < |p.steps| && p.requirements == []
    ensures var q := Number(p, |p.steps|);
            x in q.requirements && x.stepId == q.steps[i].id <==>
              && x.stepId == q.steps[i].id && x.id == RequirementDigest(x.(id := Blank))
              && Asks(q, i, EndsOf(q, i), Bare(x))
  {
    hide RequirementsFor, Asks, EndsOf, AskedBy, Number;
    NumberOwns(p, i, x);
    NumberSteps(p, |p.steps|);
    AskedMeans(p, i, x);
    SameAsking(p, Number(p, |p.steps|), i, Bare(x));
  }

  lemma BuiltIsNumbered(p: Plan) returns (start: Plan)
    requires Build(p).Some?
    ensures start.requirements == [] && Build(p).value == Number(start, |start.steps|)
    ensures |start.steps| == |p.steps|
    ensures forall k :: 0 <= k < |p.steps| ==> start.steps[k] == p.steps[k].(id := Blank)
    ensures start.incomplete == p.incomplete && start.sql == p.sql && start.statements == p.statements
  {
    hide PreflightCanon.Schemas, Number, StepsOrdered, Unnamed, Build;
    PreflightCanon.BuildParts(p);
    var (current, desired, references) := PreflightCanon.Schemas(p).value;
    var cleared := p.(current := current, desired := desired, references := references, id := Blank,
        requirements := [], steps := Unnamed(p.steps));
    start := cleared.(id := PlanDigest(cleared));
    forall k | 0 <= k < |p.steps| ensures start.steps[k] == p.steps[k].(id := Blank) {
      PreflightCanon.UnnamedAt(p.steps, k);
    }
  }

  /** A built plan holds, under the ID of each step, exactly the requirements the step's
      own fields call for: nothing is missing, nothing is added. */
  lemma AskedExactly(p: Plan, i: nat, e: Ends, x: Requirement)
    requires Build(p).Some? && i < |Build(p).value.steps| && Fits(Build(p).value, i, e)
    ensures var q := Build(p).value;
            x in q.requirements && x.stepId == q.steps[i].id <==>
              && x.stepId == q.steps[i].id && x.id == RequirementDigest(x.(id := Blank))
              && Asks(q, i, e, Bare(x))
  {
    hide RequirementsFor, Asks, EndsOf, Number, Build, Fits;
    var start := BuiltIsNumbered(p);
    NumberSteps(start, |start.steps|);
    EndsAreUnique(Build(p).value, i, e);
    NumberedExactly(start, i, x);
  }

  /** Building keeps every step's definition and phase, gives the steps different IDs
      and files every requirement under one of them. */
  lemma StepsAreKept(p: Plan)
    requires Build(p).Some?
    ensures var q := Build(p).value;
            && |q.steps| == |p.steps| && q.incomplete == p.incomplete && q.sql == p.sql
            && q.statements == p.statements
            && (forall k :: 0 <= k < |p.steps| ==>
                  q.steps[k].definition == p.steps[k].definition && q.steps[k].phase == p.steps[k].phase)
            && (forall k, l :: 0 <= k < l < |p.steps| ==> q.steps[k].id != q.steps[l].id)
            && forall x :: x in q.requirements ==> exists k :: 0 <= k < |p.steps| && x.stepId == q.steps[k].id
  {
    hide RequirementsFor, Number, Build;
    var start := BuiltIsNumbered(p);
    var q := Build(p).value;
    NumberSteps(start, |start.steps|);
    forall x | x in q.requirements ensures exists k :: 0 <= k < |p.steps| && x.stepId == q.steps[k].id {
      NumberAsks(start, |start.steps|, x);
      var k :| 0 <= k < |start.steps| && AskedBy(start, k, x);
      assert x.stepId == q.steps[k].id;
    }
  }

  // -------------------------------------------------------------- counts of one step

  /** Under the ID of step i: this count, and no requirement of another kind but doubts. */
  predicate HoldsCount(q: Plan, i: nat, r: Requirement)
    requires i < |q.steps|
  {
    && Named(r, q.steps[i].id) in q.requirements
    && forall x :: x in q.requirements && x.stepId == q.steps[i].id && x.kind != "unknown" ==>
                     x == Named(r, q.steps[i].id)
  }

  predicate HoldsNoCount(q: Plan, i: nat)
    requires i < |q.steps|
  {
    forall x :: x in q.requirements && x.stepId == q.steps[i].id ==> x.kind == "unknown"
  }

  lemma AskedOnce(p: Plan, i: nat, e: Ends, r: Requirement)
    requires Build(p).Some? && i < |Build(p).value.steps| && Fits(Build(p).value, i, e)
    requires Counted(Build(p).value.steps[i].definition, e, r) && r.kind != "unknown"
    ensures HoldsCount(Build(p).value, i, r)
  {
    hide Build, Fits, NullsCountable, DuplicatesCountable, OrphansCountable, Doubted, IndexColumns;
    var q := Build(p).value;
    var id := q.steps[i].id;
    AsksBlank(q, i, e, r);
    assert Bare(Named(r, id)) == r;
    AskedExactly(p, i, e, Named(r, id));
    forall x | x in q.requirements && x.stepId == id && x.kind != "unknown" ensures x == Named(r, id) {
      AskedExactly(p, i, e, x);
      assert Bare(x) == r;
    }
  }

  lemma NothingCounted(p: Plan, i: nat, e: Ends)
    requires Build(p).Some? && i < |Build(p).value.steps| && Fits(Build(p).value, i, e)
    requires forall r :: Counted(Build(p).value.steps[i].definition, e, r) ==> r.kind == "unknown"
    ensures HoldsNoCount(Build(p).value, i)
  {
    hide Build, Fits, Counted, Doubted;
    var q := Build(p).value;
    forall x | x in q.requirements && x.stepId == q.steps[i].id ensures x.kind == "unknown" {
      AskedExactly(p, i, e, x);
      assert Bare(x).kind == x.kind;
    }
  }

  /** What a built plan counts for a step: NULLs of the column for a step to NOT NULL, and
      none for dropping it; duplicates over the key columns for a unique index, and none
      for another; orphans over the columns of a foreign key. */
  lemma CountsExactly(p: Plan, i: nat, e: Ends)
    requires Build(p).Some? && i < |Build(p).value.steps| && Fits(Build(p).value, i, e)
    ensures var q, d := Build(p).value, Build(p).value.steps[i].definition;
            && (d.unknown ==> HoldsNoCount(q, i))
            && (!d.unknown && ToNotNull(d) ==> HoldsCount(q, i, NullCount(d, e)))
            && (d.kind == Known(AlterNullability) && d.nullable != Some(false) ==> HoldsNoCount(q, i))
            && (!d.unknown && OfIndex(d) && e.index.Some? && e.index.value.unique ==>
                  HoldsCount(q, i, DuplicateCount(e.index.value, e)))
            && (OfIndex(d) && (e.index.Some? ==> !e.index.value.unique) ==> HoldsNoCount(q, i))
            && (!d.unknown && OfKey(d) && e.key.Some? ==> HoldsCount(q, i, OrphanCount(e.key.value, e)))
  {
    hide Build, Fits, NullsCountable, DuplicatesCountable, OrphansCountable, HoldsCount, HoldsNoCount, IndexColumns;
    var d := Build(p).value.steps[i].definition;
    if !d.unknown && ToNotNull(d) {
      AskedOnce(p, i, e, NullCount(d, e));
    } else if !d.unknown && OfIndex(d) && e.index.Some? && e.index.value.unique {
      AskedOnce(p, i, e, DuplicateCount(e.index.value, e));
    } else if !d.unknown && OfKey(d) && e.key.Some? {
      AskedOnce(p, i, e, OrphanCount(e.key.value, e));
    } else {
      NothingCounted(p, i, e);
    }
  }

  // ------------------------------------------------------ what satisfied then proves

  /** The step's own requirement r was pending, measured, and counted no row. */
  predicate CountedZero(q: Plan, o: Observation, i: nat, r: Requirement)
    requires i < |q.steps| && Observes(o, q)
  {
    r.status == "pending"
    && exists k :: 0 <= k < |q.requirements| && q.requirements[k] == Named(r, q.steps[i].id)
                   && o.checks[k].Checked? && o.checks[k].status == "satisfied" && o.checks[k].count == Some(0)
  }

  lemma CountIsZero(q: Plan, o: Observation, i: nat, r: Requirement)
    requires i < |q.steps| && MeasuredZero(q, o) && Named(r, q.steps[i].id) in q.requirements
    ensures CountedZero(q, o, i, r)
  {
  }

  lemma NothingDoubted(q: Plan, o: Observation, i: nat, e: Ends, code: string)
    requires i < |q.steps| && MeasuredZero(q, o) && Build(q) == Some(q) && Fits(q, i, e)
    ensures !Doubted(q, i, e, code)
  {
    hide Build, Fits, Doubted, Counted;
    if Doubted(q, i, e, code) {
      var r := Doubt(e.now.identity, code);
      var x := Named(r, q.steps[i].id);
      assert Bare(x) == r && x.id == RequirementDigest(x.(id := Blank));
      AskedExactly(q, i, e, x);
      assert x in q.requirements;
      assert false by { CountIsZero(q, o, i, r); }
    }
  }

  lemma EachIsCounted(q: Plan, o: Observation, i: nat, e: Ends, r: Requirement)
    requires i < |q.steps| && MeasuredZero(q, o) && Build(q) == Some(q) && Fits(q, i, e)
    requires Counted(q.steps[i].definition, e, r)
    ensures CountedZero(q, o, i, r)
  {
    hide Build, Fits, Doubted, Counted, MeasuredZero, CountedZero;
    AsksBlank(q, i, e, r);
    assert Bare(Named(r, q.steps[i].id)) == r;
    AskedExactly(q, i, e, Named(r, q.steps[i].id));
    CountIsZero(q, o, i, r);
  }

  /** The step is one that a count can vouch for. */
  predicate Sound(q: Plan, i: nat, e: Ends)
    requires i < |q.steps|
  {
    var d, phase := q.steps[i].definition, q.steps[i].phase;
    && !q.incomplete && !d.unknown && d.sql == "" && q.sql == "" && q.statements == []
    && phase.phase in {"expand", "contract"} && phase.oldReaders == "compatible" && phase.oldWriters == "compatible"
    && (i > 0 && phase.phase == "contract" ==> phase.dependsOn != [])
    && (d.currentTable.Some? ==> d.currentTable.value == e.now)
    && (d.desiredTable.Some? ==> d.desiredTable.value == e.want)
    && (d.kind == Known(AlterNullability) || OfIndex(d) || OfKey(d))
  }

  lemma SoundIsKnown(q: Plan, i: nat, e: Ends)
    requires i < |q.steps| && Sound(q, i, e)
    ensures !q.steps[i].definition.unknown
  {
  }

  lemma UndoubtedIsSound(q: Plan, o: Observation, i: nat, e: Ends)
    requires i < |q.steps| && MeasuredZero(q, o) && Build(q) == Some(q) && Fits(q, i, e)
    ensures Sound(q, i, e)
    ensures var d := q.steps[i].definition;
            && (d.kind == Known(AlterNullability) ==> d.nullable.Some?)
            && (ToNotNull(d) ==> q.steps[i].phase.phase == "contract")
            && (OfIndex(d) ==> e.index.Some? && (d.desiredIndex.Some? ==> d.desiredIndex == e.index))
            && (OfKey(d) ==> e.key.Some?)
  {
    hide Build, Fits, MeasuredZero;
    NothingDoubted(q, o, i, e, "PREFLIGHT_DEFINITION");
    NothingDoubted(q, o, i, e, "PREFLIGHT_PHASE");
    NothingDoubted(q, o, i, e, "PREFLIGHT_COMPATIBILITY");
    NothingDoubted(q, o, i, e, "PREFLIGHT_DEPENDENCY");
    NothingDoubted(q, o, i, e, "PREFLIGHT_EXTERNAL_WORK");
    OtherKindsFail(q, o, i, e);
  }

  lemma OtherKindsFail(q: Plan, o: Observation, i: nat, e: Ends)
    requires i < |q.steps| && MeasuredZero(q, o) && Build(q) == Some(q) && Fits(q, i, e)
    ensures var d := q.steps[i].definition;
            !d.unknown ==> d.kind == Known(AlterNullability) || OfIndex(d) || OfKey(d) || OfObject(d)
  {
    hide Build, Fits, MeasuredZero;
    var d := q.steps[i].definition;
    var r := Doubt(e.now.identity, "PREFLIGHT_UNSUPPORTED").(status := "unsupported");
    if Counted(d, e, r) { EachIsCounted(q, o, i, e, r); }
  }

  /** A satisfied verdict speaks for every step of the plan: each is of a kind that can be
      counted and raises no doubt; NULLs for each step to NOT NULL, duplicates for each
      unique index and orphans for each foreign key were countable, were counted under that
      step's own ID, and the count was zero. */
  lemma SatisfiedCounts(s: State, a: nat, c: nat, now: Time, maxAge: Time, i: nat, e: Ends)
    requires Reaches(Init, s) && a in s.artifacts && c in s.collectors
    requires Verdict(s.artifacts[a], now, maxAge, Some((c, s.collectors[c]))).status == "satisfied"
    requires i < |s.artifacts[a].plan.steps| && Fits(s.artifacts[a].plan, i, e)
    ensures c in s.seals && s.artifacts[a].plan == s.seals[c].plan
    ensures var q, o := s.seals[c].plan, s.seals[c].observation;
            var d := q.steps[i].definition;
            && Observes(o, q) && Sound(q, i, e)
            && (ToNotNull(d) ==> NullsCountable(d, e) && CountedZero(q, o, i, NullCount(d, e)))
            && (OfIndex(d) ==>
                  && e.index.Some?
                  && (e.index.value.unique ==>
                        && DuplicatesCountable(e.index.value, e)
                        && CountedZero(q, o, i, DuplicateCount(e.index.value, e))))
            && (OfKey(d) ==>
                  && e.key.Some? && OrphansCountable(e.key.value, e)
                  && CountedZero(q, o, i, OrphanCount(e.key.value, e)))
  {
    hide Build, Fits, MeasuredZero, Reaches, Verdict, PreflightEvidence.Collected, Sound, IndexColumns;
    hide NullsCountable, DuplicatesCountable, OrphansCountable;
    SatisfiedMeans(s, a, c, now, maxAge);
    SatisfiedIsBuilt(s.artifacts[a], now, maxAge, Some((c, s.collectors[c])));
    var q, o := s.seals[c].plan, s.seals[c].observation;
    var d := q.steps[i].definition;
    UndoubtedIsSound(q, o, i, e);
    SoundIsKnown(q, i, e);
    if ToNotNull(d) { EachIsCounted(q, o, i, e, NullCount(d, e)); }
    if OfIndex(d) && e.index.value.unique { EachIsCounted(q, o, i, e, DuplicateCount(e.index.value, e)); }
    if OfKey(d) { EachIsCounted(q, o, i, e, OrphanCount(e.key.value, e)); }
  }

  lemma SatisfiedIsBuilt(p: Preflight, now: Time, maxAge: Time, owner: Option<(nat, Collector)>)
    requires Verdict(p, now, maxAge, owner).status == "satisfied"
    ensures Build(p.plan) == Some(p.plan)
  {
    hide Build, KnownCode;
  }
}
