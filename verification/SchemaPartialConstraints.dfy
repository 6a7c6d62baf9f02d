/** Definite foreign key and check steps of every plan, incomplete and legacy ones
    included, and when such a plan reports drift. */
module SchemaPartialConstraints {
  import opened Text
  import opened SchemaModel
  import opened SchemaDiff
  import opened SchemaConstraints
  import opened SchemaTables
  import opened SchemaTheorems
  import opened SchemaPartial

  predicate HasConstraint(steps: seq<Step>, kind: StepKind, a: Table, b: Table, name: string) {
    exists k :: 0 <= k < |steps| && Definite(steps[k], a, b) && steps[k].kind == kind && steps[k].constraint == name
  }

  predicate EmitsConstraint(steps: seq<Step>, kind: StepKind, name: string) {
    exists s :: s in steps && !s.unknown && s.kind == kind && s.constraint == name
  }

  predicate FamilyKind(f: Family, kind: StepKind) { kind == f.add || kind == f.drop || kind == f.alter }

  // ---------------------------------------------------------------- the local steps

  lemma {:induction false} ComparedIn(p: Pair, f: Family, pk: bool, nk: bool, prior: seq<Item>, next: seq<Item>,
      n: nat, s: Step)
    requires n <= |next + prior|
    ensures s in CompareUpTo(p, f, pk, nk, prior, next, n) <==>
            exists i :: 0 <= i < n && s in CompareAt(p, f, pk, nk, prior, next, i)
  {
    hide CompareAt;
    if n > 0 { ComparedIn(p, f, pk, nk, prior, next, n - 1, s); }
  }

  lemma NameStepsCarry(p: Pair, f: Family, pk: bool, nk: bool, x: seq<Item>, y: seq<Item>, name: string, s: Step)
    requires (x != [] || y != []) && s in NameSteps(p, f, pk, nk, x, y, name)
    ensures s.constraint == name && s.currentTable == Some(p.prev) && s.desiredTable == Some(p.next)
  {
    hide InvalidDefinition, AmbiguousName, EqualConstraint;
  }

  lemma {:induction false} FirstNamed(items: seq<Item>, name: string) returns (i: nat)
    requires Named(items, name) != []
    ensures i < |items| && items[i].name == name && Named(items[..i], name) == []
  {
    var n := |items| - 1;
    if Named(items[..n], name) == [] {
      i := n;
    } else {
      i := FirstNamed(items[..n], name);
      assert items[..n][..i] == items[..i];
    }
  }

  /** The steps about one name are those its entries give. */
  lemma OneName(p: Pair, f: Family, pk: bool, nk: bool, prior: seq<Item>, next: seq<Item>, name: string, s: Step)
    requires s.constraint == name && (Named(prior, name) != [] || Named(next, name) != [])
    ensures s in CompareItems(p, f, pk, nk, prior, next) <==>
            s in NameSteps(p, f, pk, nk, Named(prior, name), Named(next, name), name)
  {
    hide NameSteps, Named, CompareUpTo;
    var all := next + prior;
    ComparedIn(p, f, pk, nk, prior, next, |all|, s);
    NamedAppend(next, prior, name);
    var first := FirstNamed(all, name);
    assert CompareAt(p, f, pk, nk, prior, next, first)
           == NameSteps(p, f, pk, nk, Named(prior, name), Named(next, name), name);
    forall i | 0 <= i < |all| && s in CompareAt(p, f, pk, nk, prior, next, i) ensures all[i].name == name {
      NamedNonEmpty(prior, next, i);
      NameStepsCarry(p, f, pk, nk, Named(prior, all[i].name), Named(next, all[i].name), all[i].name, s);
    }
  }

  lemma NotTheOther(p: Pair, f: Family, pk: bool, nk: bool, prior: seq<Item>, next: seq<Item>, s: Step, kind: StepKind)
    requires IsFamily(f) && !s.unknown && s in CompareItems(p, f, pk, nk, prior, next)
    ensures PartOf(s.kind) == FamilyPart(f) || PartOf(s.kind) == NoPart
  {
    hide CompareUpTo, PartOf;
    ConstraintKinds(p, f, pk, nk, prior, next, |next + prior|);
  }

  function CoverageOf(f: Family, c: SchemaCoverage): Coverage { if f == FOREIGN_KEYS then c.foreignKeys else c.checks }

  function Items(f: Family, t: Table): seq<Item> {
    if f == FOREIGN_KEYS then FkItems(t, t.foreignKeys) else CheckItems(t.checks)
  }

  function Compared(p: Pair, f: Family): seq<Step> {
    CompareItems(p, f, CoverageOf(f, p.prevCoverage) == Complete, CoverageOf(f, p.nextCoverage) == Complete,
                 Items(f, p.prev), Items(f, p.next))
  }

  /** Constraint steps come from the constraints of their own family. */
  lemma ConstraintStepsIn(p: Pair, f: Family, s: Step)
    requires IsFamily(f) && !s.unknown && FamilyKind(f, s.kind)
    ensures s in AttachAll(p, DiffTable(p.prev, p.next)) || s in DiffConstraints(p) <==> s in Compared(p, f)
  {
    hide CompareItems, UnknownItems, FkItems, CheckItems, DiffTable, AttachAll;
    MarkersOnly(p, FkItems(p.prev, p.prev.foreignKeys));
    MarkersOnly(p, FkItems(p.next, p.next.foreignKeys));
    MarkersOnly(p, CheckItems(p.prev.checks));
    MarkersOnly(p, CheckItems(p.next.checks));
    var g := if f == FOREIGN_KEYS then CHECKS else FOREIGN_KEYS;
    if s in Compared(p, g) {
      NotTheOther(p, g, CoverageOf(g, p.prevCoverage) == Complete, CoverageOf(g, p.nextCoverage) == Complete,
          Items(g, p.prev), Items(g, p.next), s, s.kind);
    }
    NotAttached(p, s);
  }

  lemma NotAttached(p: Pair, s: Step)
    requires !s.unknown && (PartOf(s.kind) == ForeignKeyPart || PartOf(s.kind) == CheckPart)
    ensures s !in AttachAll(p, DiffTable(p.prev, p.next))
  {
    hide DesiredColumnsUpTo, CurrentColumnsUpTo, DesiredIndexesUpTo, CurrentIndexesUpTo, AmbiguousColumns, AttachAll;
    AttachedIn(p, DiffTable(p.prev, p.next), s);
    ColumnKinds(p.prev, p.next, |p.next.columns|, |p.prev.columns|);
    IndexKinds(p.prev, p.next, |p.next.indexes|, |p.prev.indexes|);
  }

  lemma PlanEmitsConstraint(current: Schema, desired: Schema, i: nat, j: nat, f: Family, kind: StepKind, name: string)
    requires Met(current, desired, i, j) && IsFamily(f) && FamilyKind(f, kind)
    ensures i < |current.tables| && j < |desired.tables|
    ensures var a, b := current.tables[i], desired.tables[j];
            var p := PairOf(current, desired, a, b);
            (Named(Items(f, a), name) != [] || Named(Items(f, b), name) != []) ==>
            (HasConstraint(DiffSteps(current, desired), kind, a, b, name) <==>
             EmitsConstraint(NameSteps(p, f, CoverageOf(f, p.prevCoverage) == Complete,
                 CoverageOf(f, p.nextCoverage) == Complete, Named(Items(f, a), name), Named(Items(f, b), name), name),
                 kind, name))
  {
    hide Met, DiffSteps, NameSteps, Named, Items, PairOf, CompareItems, DiffTable, DiffConstraints, AttachAll,
         CoverageOf;
    MetBounds(current, desired, i, j);
    var a, b, steps := current.tables[i], desired.tables[j], DiffSteps(current, desired);
    var p := PairOf(current, desired, a, b);
    PairIsOfTables(current, desired, a, b);
    var pk, nk := CoverageOf(f, p.prevCoverage) == Complete, CoverageOf(f, p.nextCoverage) == Complete;
    var x, y := Items(f, a), Items(f, b);
    if Named(x, name) != [] || Named(y, name) != [] {
      forall s: Step | Definite(s, a, b) && s.kind == kind && s.constraint == name
        ensures s in steps <==> s in NameSteps(p, f, pk, nk, Named(x, name), Named(y, name), name)
      {
        PlanHas(current, desired, i, j, s);
        ConstraintStepsIn(p, f, s);
        OneName(p, f, pk, nk, x, y, name, s);
      }
      forall s | s in NameSteps(p, f, pk, nk, Named(x, name), Named(y, name), name)
        ensures s.currentTable == Some(a) && s.desiredTable == Some(b)
      {
        NameStepsCarry(p, f, pk, nk, Named(x, name), Named(y, name), name, s);
      }
      InSteps(steps, kind, a, b, name);
    }
  }

  lemma InSteps(steps: seq<Step>, kind: StepKind, a: Table, b: Table, name: string)
    ensures HasConstraint(steps, kind, a, b, name) <==>
            exists s :: s in steps && Definite(s, a, b) && s.kind == kind && s.constraint == name
  {
    if s :| s in steps && Definite(s, a, b) && s.kind == kind && s.constraint == name {
      var k :| 0 <= k < |steps| && steps[k] == s;
    }
  }

  // --------------------------------------------------------------------- names alone

  /** The one foreign key of that name, which no check of the table shares. */
  predicate SoleForeignKey(t: Table, p: nat, name: string) {
    && OnlyForeignKey(t, p, name) && SimpleName(name)
    && (forall k :: 0 <= k < |t.checks| ==> t.checks[k].name != name)
  }

  predicate SoleCheck(t: Table, p: nat, name: string) {
    && OnlyCheck(t, p, name) && SimpleName(name)
    && (forall k :: 0 <= k < |t.foreignKeys| ==> t.foreignKeys[k].name != name)
  }

  predicate NoConstraint(t: Table, name: string) {
    && (forall k :: 0 <= k < |t.checks| ==> t.checks[k].name != name)
    && (forall k :: 0 <= k < |t.foreignKeys| ==> t.foreignKeys[k].name != name)
  }

  lemma {:induction false} NoneNamed(items: seq<Item>, name: string)
    requires forall k :: 0 <= k < |items| ==> items[k].name != name
    ensures Named(items, name) == []
  {
    if items != [] { NoneNamed(items[..|items| - 1], name); }
  }

  lemma {:induction false} OneNamed(items: seq<Item>, p: nat, name: string)
    requires p < |items| && items[p].name == name
    requires forall k :: 0 <= k < |items| && items[k].name == name ==> k == p
    ensures Named(items, name) == [items[p]]
  {
    var n := |items| - 1;
    if p == n { NoneNamed(items[..n], name); } else { OneNamed(items[..n], p, name); }
  }

  predicate OnlyForeignKey(t: Table, p: int, name: string) {
    && 0 <= p < |t.foreignKeys| && t.foreignKeys[p].name == name
    && forall k :: 0 <= k < |t.foreignKeys| && t.foreignKeys[k].name == name ==> k == p
  }

  predicate OnlyCheck(t: Table, p: int, name: string) {
    && 0 <= p < |t.checks| && t.checks[p].name == name
    && forall k :: 0 <= k < |t.checks| && t.checks[k].name == name ==> k == p
  }

  lemma ForeignKeyNames(t: Table, name: string)
    ensures (forall k :: 0 <= k < |t.foreignKeys| ==> t.foreignKeys[k].name != name) ==>
              Named(FkItems(t, t.foreignKeys), name) == []
    ensures forall p :: OnlyForeignKey(t, p, name) ==>
              Named(FkItems(t, t.foreignKeys), name) == [FkItem(t, t.foreignKeys[p])]
  {
    hide ValidForeignKey;
    var items := FkItems(t, t.foreignKeys);
    forall k | 0 <= k < |items| ensures items[k] == FkItem(t, t.foreignKeys[k]) { FkItemsPlain(t, t.foreignKeys, k); }
    if forall k :: 0 <= k < |t.foreignKeys| ==> t.foreignKeys[k].name != name { NoneNamed(items, name); }
    forall p | OnlyForeignKey(t, p, name)
      ensures Named(items, name) == [FkItem(t, t.foreignKeys[p])]
    {
      OneNamed(items, p, name);
    }
  }

  lemma CheckNames(t: Table, name: string)
    ensures (forall k :: 0 <= k < |t.checks| ==> t.checks[k].name != name) ==> Named(CheckItems(t.checks), name) == []
    ensures forall p :: OnlyCheck(t, p, name) ==> Named(CheckItems(t.checks), name) == [CheckItem(t.checks[p])]
  {
    hide ValidCheck;
    var items := CheckItems(t.checks);
    forall k | 0 <= k < |items| ensures items[k] == CheckItem(t.checks[k]) { CheckItemsPlain(t.checks, k); }
    if forall k :: 0 <= k < |t.checks| ==> t.checks[k].name != name { NoneNamed(items, name); }
    forall p | OnlyCheck(t, p, name)
      ensures Named(items, name) == [CheckItem(t.checks[p])]
    {
      OneNamed(items, p, name);
    }
  }

  // ------------------------------------------------------------------- the exact steps

  /** Validations differ; one that is unknown is not compared. */
  predicate ValidationsDiffer(a: string, b: string) { a != "unknown" && b != "unknown" && a != b }

  predicate ForeignKeysDiffer(x: ForeignKey, y: ForeignKey) {
    || x.columns != y.columns || x.reference != y.reference || x.referenced != y.referenced
    || x.onUpdate != y.onUpdate || x.onDelete != y.onDelete || x.matching != y.matching
    || x.enforcement != y.enforcement || x.deferrability != y.deferrability || x.name != y.name
    || ValidationsDiffer(x.validation, y.validation)
  }

  predicate ChecksDiffer(x: Check, y: Check) {
    || x.name != y.name || x.inheritance != y.inheritance || x.expression != y.expression
    || x.enforcement != y.enforcement || ValidationsDiffer(x.validation, y.validation)
  }

  lemma ForeignKeysDifferMeans(x: ForeignKey, y: ForeignKey)
    ensures EqualConstraint(FkValue(x.(raw := "")), FkValue(y.(raw := ""))) <==> !ForeignKeysDiffer(x, y)
  {
  }

  lemma ChecksDifferMeans(x: Check, y: Check)
    ensures EqualConstraint(CheckValue(x.(raw := "")), CheckValue(y.(raw := ""))) <==> !ChecksDiffer(x, y)
  {
  }

  /** What one unambiguous name gives: both entries, a new one, or a lost one. */
  lemma SharedNameEmits(p: Pair, f: Family, pk: bool, nk: bool, x: Item, y: Item, name: string)
    requires IsFamily(f) && SimpleName(name)
    requires ConstraintNameCount(p.prev, name) == 1 && ConstraintNameCount(p.next, name) == 1
    ensures EmitsConstraint(NameSteps(p, f, pk, nk, [x], [y], name), f.alter, name) <==>
            x.valid && y.valid && !EqualConstraint(x.value, y.value)
    ensures !EmitsConstraint(NameSteps(p, f, pk, nk, [x], [y], name), f.add, name)
            && !EmitsConstraint(NameSteps(p, f, pk, nk, [x], [y], name), f.drop, name)
  {
    hide EqualConstraint, SimpleName, ConstraintNameCount;
    var steps := NameSteps(p, f, pk, nk, [x], [y], name);
    if x.valid && y.valid && !EqualConstraint(x.value, y.value) { assert steps[0] in steps; }
  }

  lemma NewNameEmits(p: Pair, f: Family, pk: bool, nk: bool, y: Item, name: string)
    requires IsFamily(f) && SimpleName(name)
    requires ConstraintNameCount(p.prev, name) == 0 && ConstraintNameCount(p.next, name) == 1
    ensures EmitsConstraint(NameSteps(p, f, pk, nk, [], [y], name), f.add, name) <==> pk && p.scope
  {
    hide EqualConstraint, SimpleName, ConstraintNameCount;
    var steps := NameSteps(p, f, pk, nk, [], [y], name);
    if pk && p.scope { assert steps[|steps| - 1] in steps; }
  }

  lemma GoneNameEmits(p: Pair, f: Family, pk: bool, nk: bool, x: Item, name: string)
    requires IsFamily(f) && SimpleName(name)
    requires ConstraintNameCount(p.prev, name) == 1 && ConstraintNameCount(p.next, name) == 0
    ensures EmitsConstraint(NameSteps(p, f, pk, nk, [x], [], name), f.drop, name) <==> nk && p.scope
  {
    hide EqualConstraint, SimpleName, ConstraintNameCount;
    var steps := NameSteps(p, f, pk, nk, [x], [], name);
    if nk && p.scope { assert steps[|steps| - 1] in steps; }
  }

  /** For every pair of schemas: a foreign key of both tables under one unambiguous name
      is altered exactly when both definitions are valid and they differ. */
  lemma SharedForeignKeyExactly(current: Schema, desired: Schema, i: nat, j: nat, p: nat, q: nat, name: string)
    requires Met(current, desired, i, j)
    requires SoleForeignKey(current.tables[i], p, name) && SoleForeignKey(desired.tables[j], q, name)
    ensures var a, b, steps := current.tables[i], desired.tables[j], DiffSteps(current, desired);
            var x, y := a.foreignKeys[p], b.foreignKeys[q];
            && (HasConstraint(steps, AlterForeignKey, a, b, name) <==>
                ValidForeignKey(x, a) && ValidForeignKey(y, b) && ForeignKeysDiffer(x, y))
            && !HasConstraint(steps, AddForeignKey, a, b, name) && !HasConstraint(steps, DropForeignKey, a, b, name)
  {
    hide Met, DiffSteps, NameSteps, HasConstraint, EmitsConstraint, PairOf, ValidForeignKey, EqualConstraint,
         SimpleName, ForeignKeysDiffer, Named, FkItems, CheckItems;
    MetBounds(current, desired, i, j);
    var a, b := current.tables[i], desired.tables[j];
    var pr := PairOf(current, desired, a, b);
    PairIsOfTables(current, desired, a, b);
    ForeignKeyNames(a, name);
    ForeignKeyNames(b, name);
    CheckNames(a, name);
    CheckNames(b, name);
    PlanEmitsConstraint(current, desired, i, j, FOREIGN_KEYS, AlterForeignKey, name);
    PlanEmitsConstraint(current, desired, i, j, FOREIGN_KEYS, AddForeignKey, name);
    PlanEmitsConstraint(current, desired, i, j, FOREIGN_KEYS, DropForeignKey, name);
    SharedNameEmits(pr, FOREIGN_KEYS, pr.prevCoverage.foreignKeys == Complete, pr.nextCoverage.foreignKeys == Complete,
        FkItem(a, a.foreignKeys[p]), FkItem(b, b.foreignKeys[q]), name);
    ForeignKeysDifferMeans(a.foreignKeys[p], b.foreignKeys[q]);
  }

  lemma SharedCheckExactly(current: Schema, desired: Schema, i: nat, j: nat, p: nat, q: nat, name: string)
    requires Met(current, desired, i, j)
    requires SoleCheck(current.tables[i], p, name) && SoleCheck(desired.tables[j], q, name)
    ensures var a, b, steps := current.tables[i], desired.tables[j], DiffSteps(current, desired);
            var x, y := a.checks[p], b.checks[q];
            && (HasConstraint(steps, AlterCheck, a, b, name) <==> ValidCheck(x) && ValidCheck(y) && ChecksDiffer(x, y))
            && !HasConstraint(steps, AddCheck, a, b, name) && !HasConstraint(steps, DropCheck, a, b, name)
  {
    hide Met, DiffSteps, NameSteps, HasConstraint, EmitsConstraint, PairOf, ValidCheck, EqualConstraint,
         SimpleName, ChecksDiffer, Named, FkItems, CheckItems;
    MetBounds(current, desired, i, j);
    var a, b := current.tables[i], desired.tables[j];
    var pr := PairOf(current, desired, a, b);
    PairIsOfTables(current, desired, a, b);
    ForeignKeyNames(a, name);
    ForeignKeyNames(b, name);
    CheckNames(a, name);
    CheckNames(b, name);
    PlanEmitsConstraint(current, desired, i, j, CHECKS, AlterCheck, name);
    PlanEmitsConstraint(current, desired, i, j, CHECKS, AddCheck, name);
    PlanEmitsConstraint(current, desired, i, j, CHECKS, DropCheck, name);
    SharedNameEmits(pr, CHECKS, pr.prevCoverage.checks == Complete, pr.nextCoverage.checks == Complete,
        CheckItem(a.checks[p]), CheckItem(b.checks[q]), name);
    ChecksDifferMeans(a.checks[p], b.checks[q]);
  }

  predicate ForeignKeysVouched(t: Table, context: Option<Context>) {
    context.Some? && t.coverage.foreignKeys == Complete && context.value.coverage.foreignKeys == Complete
  }

  predicate ChecksVouched(t: Table, context: Option<Context>) {
    context.Some? && t.coverage.checks == Complete && context.value.coverage.checks == Complete
  }

  /** New and lost constraints are definite exactly when scopes are equal and the side
      without them vouches for its collection. */
  lemma NewForeignKeyExactly(current: Schema, desired: Schema, i: nat, j: nat, q: nat, name: string)
    requires Met(current, desired, i, j)
    requires NoConstraint(current.tables[i], name) && SoleForeignKey(desired.tables[j], q, name)
    ensures HasConstraint(DiffSteps(current, desired), AddForeignKey, current.tables[i], desired.tables[j], name) <==>
            SameScope(current.context, desired.context) && ForeignKeysVouched(current.tables[i], current.context)
  {
    hide Met, DiffSteps, NameSteps, HasConstraint, EmitsConstraint, ValidForeignKey, SimpleName, Named, FkItems,
         CheckItems, SameScope;
    MetBounds(current, desired, i, j);
    var a, b := current.tables[i], desired.tables[j];
    var pr := PairOf(current, desired, a, b);
    ForeignKeyNames(a, name);
    ForeignKeyNames(b, name);
    CheckNames(a, name);
    CheckNames(b, name);
    PlanEmitsConstraint(current, desired, i, j, FOREIGN_KEYS, AddForeignKey, name);
    NewNameEmits(pr, FOREIGN_KEYS, pr.prevCoverage.foreignKeys == Complete, pr.nextCoverage.foreignKeys == Complete,
        FkItem(b, b.foreignKeys[q]), name);
  }

  lemma GoneForeignKeyExactly(current: Schema, desired: Schema, i: nat, j: nat, p: nat, name: string)
    requires Met(current, desired, i, j)
    requires SoleForeignKey(current.tables[i], p, name) && NoConstraint(desired.tables[j], name)
    ensures HasConstraint(DiffSteps(current, desired), DropForeignKey, current.tables[i], desired.tables[j], name) <==>
            SameScope(current.context, desired.context) && ForeignKeysVouched(desired.tables[j], desired.context)
  {
    hide Met, DiffSteps, NameSteps, HasConstraint, EmitsConstraint, ValidForeignKey, SimpleName, Named, FkItems,
         CheckItems, SameScope;
    MetBounds(current, desired, i, j);
    var a, b := current.tables[i], desired.tables[j];
    var pr := PairOf(current, desired, a, b);
    ForeignKeyNames(a, name);
    ForeignKeyNames(b, name);
    CheckNames(a, name);
    CheckNames(b, name);
    PlanEmitsConstraint(current, desired, i, j, FOREIGN_KEYS, DropForeignKey, name);
    GoneNameEmits(pr, FOREIGN_KEYS, pr.prevCoverage.foreignKeys == Complete, pr.nextCoverage.foreignKeys == Complete,
        FkItem(a, a.foreignKeys[p]), name);
  }

  lemma NewCheckExactly(current: Schema, desired: Schema, i: nat, j: nat, q: nat, name: string)
    requires Met(current, desired, i, j)
    requires NoConstraint(current.tables[i], name) && SoleCheck(desired.tables[j], q, name)
    ensures HasConstraint(DiffSteps(current, desired), AddCheck, current.tables[i], desired.tables[j], name) <==>
            SameScope(current.context, desired.context) && ChecksVouched(current.tables[i], current.context)
  {
    hide Met, DiffSteps, NameSteps, HasConstraint, EmitsConstraint, ValidCheck, SimpleName, Named, FkItems,
         CheckItems, SameScope;
    MetBounds(current, desired, i, j);
    var a, b := current.tables[i], desired.tables[j];
    var pr := PairOf(current, desired, a, b);
    ForeignKeyNames(a, name);
    ForeignKeyNames(b, name);
    CheckNames(a, name);
    CheckNames(b, name);
    PlanEmitsConstraint(current, desired, i, j, CHECKS, AddCheck, name);
    NewNameEmits(pr, CHECKS, pr.prevCoverage.checks == Complete, pr.nextCoverage.checks == Complete,
        CheckItem(b.checks[q]), name);
  }

  lemma GoneCheckExactly(current: Schema, desired: Schema, i: nat, j: nat, p: nat, name: string)
    requires Met(current, desired, i, j)
    requires SoleCheck(current.tables[i], p, name) && NoConstraint(desired.tables[j], name)
    ensures HasConstraint(DiffSteps(current, desired), DropCheck, current.tables[i], desired.tables[j], name) <==>
            SameScope(current.context, desired.context) && ChecksVouched(desired.tables[j], desired.context)
  {
    hide Met, DiffSteps, NameSteps, HasConstraint, EmitsConstraint, ValidCheck, SimpleName, Named, FkItems,
         CheckItems, SameScope;
    MetBounds(current, desired, i, j);
    var a, b := current.tables[i], desired.tables[j];
    var pr := PairOf(current, desired, a, b);
    ForeignKeyNames(a, name);
    ForeignKeyNames(b, name);
    CheckNames(a, name);
    CheckNames(b, name);
    PlanEmitsConstraint(current, desired, i, j, CHECKS, DropCheck, name);
    GoneNameEmits(pr, CHECKS, pr.prevCoverage.checks == Complete, pr.nextCoverage.checks == Complete,
        CheckItem(a.checks[p]), name);
  }
}
