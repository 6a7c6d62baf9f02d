/** Foreign keys and checks: the comparison by name turns the current constraints
    into the desired ones, and is silent exactly when they already agree. */
module SchemaConstraints {
  import opened Text
  import opened SchemaModel
  import opened SchemaDiff
  import opened SchemaMeaning

  predicate IsFamily(f: Family) { f == FOREIGN_KEYS || f == CHECKS }

  /** Both sides of one family, as diffConstraints prepares them. */
  predicate Prepared(p: Pair, f: Family, prior: seq<Item>, next: seq<Item>) {
    IsFamily(f) && prior == FamilyItems(f, p.prev) && next == FamilyItems(f, p.next)
  }

  predicate AllKnown(items: seq<Item>) { forall i :: 0 <= i < |items| ==> ItemKnown(items[i]) }

  // ---------------------------------------------------------------- entries by name

  lemma {:induction false} NamedMeans(items: seq<Item>, name: string)
    ensures name in Constraints(items) <==> Named(items, name) != []
    ensures |Named(items, name)| == 1 ==> Constraints(items)[name] == ConstraintMean(Named(items, name)[0].value)
  {
    hide ConstraintMean;
    if items != [] { NamedMeans(items[..|items| - 1], name); }
  }

  lemma {:induction false} NamedFrom(items: seq<Item>, name: string, k: nat)
    requires k < |Named(items, name)|
    ensures Named(items, name)[k] in items && Named(items, name)[k].name == name
  {
    if k < |Named(items[..|items| - 1], name)| { NamedFrom(items[..|items| - 1], name, k); }
  }

  lemma {:induction false} NamedAppend(a: seq<Item>, b: seq<Item>, name: string)
    ensures Named(a + b, name) == Named(a, name) + Named(b, name)
  {
    if b == [] {
      assert a + b == a;
    } else {
      NamedAppend(a, b[..|b| - 1], name);
      assert (a + b)[..|a + b| - 1] == a + b[..|b| - 1];
    }
  }

  lemma NamedOneMore(items: seq<Item>, n: nat, name: string)
    requires n < |items|
    ensures Named(items[..n + 1], name) == Named(items[..n], name) + if items[n].name == name then [items[n]] else []
  {
    assert items[..n + 1][..n] == items[..n];
  }

  predicate RawCleared(v: ConstraintValue) {
    match v
    case FkValue(f) => f.raw == ""
    case CheckValue(c) => c.raw == ""
  }

  lemma {:induction false} FkItemsPlain(t: Table, fs: seq<ForeignKey>, i: nat)
    requires i < |fs|
    ensures FkItems(t, fs)[i] == FkItem(t, fs[i])
  {
    hide FkItem;
    if i < |fs| - 1 { FkItemsPlain(t, fs[..|fs| - 1], i); }
  }

  lemma {:induction false} CheckItemsPlain(cs: seq<Check>, i: nat)
    requires i < |cs|
    ensures CheckItems(cs)[i] == CheckItem(cs[i])
  {
    hide CheckItem;
    if i < |cs| - 1 { CheckItemsPlain(cs[..|cs| - 1], i); }
  }

  lemma FamilyItemsPlain(f: Family, t: Table, i: Item)
    requires i in FamilyItems(f, t)
    ensures RawCleared(i.value)
  {
    hide ValidForeignKey, ValidCheck;
    var n :| 0 <= n < |FamilyItems(f, t)| && FamilyItems(f, t)[n] == i;
    if f == FOREIGN_KEYS { FkItemsPlain(t, t.foreignKeys, n); } else { CheckItemsPlain(t.checks, n); }
  }

  /** Known definitions compare equal exactly when they mean the same. */
  lemma EqualConstraintMeans(a: Item, b: Item)
    requires ItemKnown(a) && ItemKnown(b) && RawCleared(a.value) && RawCleared(b.value)
    ensures EqualConstraint(a.value, b.value) <==> ConstraintMean(a.value) == ConstraintMean(b.value)
  {
  }

  // ------------------------------------------------------------- one name at a time

  /** m agrees with the desired side on the names seen so far, and with the current
      side on the others. */
  predicate Halfway(a: map<string, ConstraintValue>, b: map<string, ConstraintValue>, m: map<string, ConstraintValue>,
      seen: seq<Item>, name: string) {
    var side := if Named(seen, name) != [] then b else a;
    (name in m <==> name in side) && (name in m ==> m[name] == side[name])
  }

  ghost predicate AllHalfway(a: map<string, ConstraintValue>, b: map<string, ConstraintValue>, m: map<string,
      ConstraintValue>, seen: seq<Item>) {
    forall name :: Halfway(a, b, m, seen, name)
  }

  /** NameSteps without markers: at most one entry a side, all valid. */
  lemma KnownName(p: Pair, f: Family, pk: bool, nk: bool, x: seq<Item>, y: seq<Item>, name: string)
    requires (x != [] || y != []) && NoUnknown(NameSteps(p, f, pk, nk, x, y, name))
    ensures |x| <= 1 && |y| <= 1
    ensures NameSteps(p, f, pk, nk, x, y, name)
         == if x == [] then [ConstraintStep(p, f.add, name)]
            else if y == [] then [ConstraintStep(p, f.drop, name)]
            else Marker(!EqualConstraint(x[0].value, y[0].value), ConstraintStep(p, f.alter, name))
  {
    hide InvalidDefinition, ConstraintNameCount, SimpleName, EqualConstraint;
    MarkerKnown(true, ConstraintUnknown(p, name));
    var k := if x == [] then f.add else f.drop;
    assert [ConstraintUnknown(p, name), ConstraintStep(p, k, name)]
           == [ConstraintUnknown(p, name)] + [ConstraintStep(p, k, name)];
    NoUnknownAppend([ConstraintUnknown(p, name)], [ConstraintStep(p, k, name)]);
  }

  lemma FamilyApplies(p: Pair, f: Family, name: string, m: map<string, ConstraintValue>)
    requires IsFamily(f)
    ensures ApplyConstraint(f, ConstraintStep(p, f.drop, name), m) == m - {name}
    ensures forall k :: (k == f.add || k == f.alter) && Named(FamilyItems(f, p.next), name) != []
              ==> ApplyConstraint(f, ConstraintStep(p, k, name), m)
                  == m[name := ConstraintMean(Named(FamilyItems(f, p.next), name)[0].value)]
  {
    hide FamilyItems, ConstraintMean, Named;
  }

  /** What one new name does to the constraints. */
  lemma NameEffect(p: Pair, f: Family, pk: bool, nk: bool, prior: seq<Item>, next: seq<Item>, name: string,
      m: map<string, ConstraintValue>)
    requires Prepared(p, f, prior, next) && AllKnown(prior) && AllKnown(next)
    requires Named(prior, name) != [] || Named(next, name) != []
    requires NoUnknown(NameSteps(p, f, pk, nk, Named(prior, name), Named(next, name), name))
    requires Halfway(Constraints(prior), Constraints(next), m, [], name)
    ensures var r := Fold(NameSteps(p, f, pk, nk, Named(prior, name), Named(next, name), name), m, Applier(f));
            && r - {name} == m - {name}
            && (name in r <==> name in Constraints(next)) && (name in r ==> r[name] == Constraints(next)[name])
  {
    hide FamilyItems, ConstraintMean, Named, Constraints, EqualConstraint, NameSteps, ItemKnown, RawCleared,
         ApplyConstraint;
    var x, y := Named(prior, name), Named(next, name);
    assert Named([], name) == [] by { NothingNamed(name); }
    KnownName(p, f, pk, nk, x, y, name);
    NamedMeans(prior, name);
    NamedMeans(next, name);
    FamilyApplies(p, f, name, m);
    if x == [] {
      FoldOne(ConstraintStep(p, f.add, name), m, Applier(f));
    } else if y == [] {
      FoldOne(ConstraintStep(p, f.drop, name), m, Applier(f));
    } else {
      NamedFrom(prior, name, 0);
      NamedFrom(next, name, 0);
      FamilyItemsPlain(f, p.prev, x[0]);
      FamilyItemsPlain(f, p.next, y[0]);
      EqualConstraintMeans(x[0], y[0]);
      if !EqualConstraint(x[0].value, y[0].value) { FoldOne(ConstraintStep(p, f.alter, name), m, Applier(f)); }
      else { assert Marker(false, ConstraintStep(p, f.alter, name)) == []; }
    }
  }

  lemma NothingNamed(name: string)
    ensures Named([], name) == []
  {
  }

  lemma {:induction false} CompareEffect(p: Pair, f: Family, pk: bool, nk: bool, prior: seq<Item>, next: seq<Item>,
      n: nat)
    requires Prepared(p, f, prior, next) && AllKnown(prior) && AllKnown(next) && n <= |next + prior|
    requires NoUnknown(CompareUpTo(p, f, pk, nk, prior, next, n))
    ensures var r := Fold(CompareUpTo(p, f, pk, nk, prior, next, n), Constraints(prior), Applier(f));
            AllHalfway(Constraints(prior), Constraints(next), r, (next + prior)[..n])
  {
    hide CompareAt, Constraints, Named, Prepared, AllKnown, ApplyConstraint, Halfway;
    var all := next + prior;
    if n == 0 {
      forall name ensures Halfway(Constraints(prior), Constraints(next), Constraints(prior), all[..0], name) {
        HalfwayStart(Constraints(prior), Constraints(next), all, name);
      }
    } else {
      var init, last := CompareUpTo(p, f, pk, nk, prior, next, n - 1), CompareAt(p, f, pk, nk, prior, next, n - 1);
      NoUnknownAppend(init, last);
      CompareEffect(p, f, pk, nk, prior, next, n - 1);
      FoldAppend(init, last, Constraints(prior), Applier(f));
      CompareOneMore(p, f, pk, nk, prior, next, n - 1, Fold(init, Constraints(prior), Applier(f)));
    }
  }

  lemma HalfwayStart(a: map<string, ConstraintValue>, b: map<string, ConstraintValue>, all: seq<Item>, name: string)
    ensures Halfway(a, b, a, all[..0], name)
  {
    assert all[..0] == [];
  }

  lemma CompareOneMore(p: Pair, f: Family, pk: bool, nk: bool, prior: seq<Item>, next: seq<Item>, i: nat,
      m: map<string, ConstraintValue>)
    requires Prepared(p, f, prior, next) && AllKnown(prior) && AllKnown(next) && i < |next + prior|
    requires NoUnknown(CompareAt(p, f, pk, nk, prior, next, i))
    requires AllHalfway(Constraints(prior), Constraints(next), m, (next + prior)[..i])
    ensures AllHalfway(Constraints(prior), Constraints(next),
            Fold(CompareAt(p, f, pk, nk, prior, next, i), m, Applier(f)), (next + prior)[..i + 1])
  {
    hide NameSteps, Constraints, Named, Prepared, AllKnown, ApplyConstraint;
    var all := next + prior;
    var name := all[i].name;
    var r := Fold(CompareAt(p, f, pk, nk, prior, next, i), m, Applier(f));
    var seen := Named(all[..i], name) != [];
    assert Halfway(Constraints(prior), Constraints(next), m, all[..i], name);
    if !seen {
      NamedNonEmpty(prior, next, i);
      assert Halfway(Constraints(prior), Constraints(next), m, [], name) by { NothingNamed(name); }
      NameEffect(p, f, pk, nk, prior, next, name, m);
    }
    var after := all[..i + 1];
    forall other ensures Halfway(Constraints(prior), Constraints(next), r, after, other) {
      NamedOneMore(all, i, other);
      assert Halfway(Constraints(prior), Constraints(next), m, all[..i], other);
      if other != name && !seen { SameElsewhere(r, m, name, other); }
    }
  }

  lemma SameElsewhere(r: map<string, ConstraintValue>, m: map<string, ConstraintValue>, name: string, other: string)
    requires r - {name} == m - {name} && other != name
    ensures (other in r <==> other in m) && (other in r ==> r[other] == m[other])
  {
    assert other in r <==> other in r - {name};
    assert other in m <==> other in m - {name};
  }

  /** A complete comparison of one family produces exactly the desired constraints. */
  lemma ConstraintsSound(p: Pair, f: Family, pk: bool, nk: bool, prior: seq<Item>, next: seq<Item>)
    requires Prepared(p, f, prior, next) && AllKnown(prior) && AllKnown(next)
             && NoUnknown(CompareItems(p, f, pk, nk, prior, next))
    ensures Fold(CompareItems(p, f, pk, nk, prior, next), Constraints(prior), Applier(f)) == Constraints(next)
  {
    hide NameSteps, Constraints, Named, Prepared, AllKnown, ApplyConstraint, CompareUpTo, Fold;
    var all := next + prior;
    CompareEffect(p, f, pk, nk, prior, next, |all|);
    var r := Fold(CompareItems(p, f, pk, nk, prior, next), Constraints(prior), Applier(f));
    forall name ensures (name in r <==> name in Constraints(next))
        && (name in r ==> r[name] == Constraints(next)[name]) {
      assert Halfway(Constraints(prior), Constraints(next), r, all[..|all|], name);
      assert all[..|all|] == all;
      NamedAppend(next, prior, name);
      NamedMeans(next, name);
      NamedMeans(prior, name);
    }
    assert r == Constraints(next);
  }

  // ------------------------------------------------------- nothing to do, or nothing known

  lemma QuietName(p: Pair, f: Family, pk: bool, nk: bool, prior: seq<Item>, next: seq<Item>, i: nat)
    requires Prepared(p, f, prior, next) && AllKnown(prior) && AllKnown(next) && i < |next + prior|
    requires NoUnknown(CompareAt(p, f, pk, nk, prior, next, i)) && Constraints(prior) == Constraints(next)
    ensures CompareAt(p, f, pk, nk, prior, next, i) == []
  {
    hide FamilyItems, ConstraintMean, Named, Constraints, EqualConstraint, NameSteps, ItemKnown, RawCleared;
    var name := (next + prior)[i].name;
    if Named((next + prior)[..i], name) == [] {
      NamedNonEmpty(prior, next, i);
      var x, y := Named(prior, name), Named(next, name);
      KnownName(p, f, pk, nk, x, y, name);
      NamedMeans(prior, name);
      NamedMeans(next, name);
      NamedFrom(prior, name, 0);
      NamedFrom(next, name, 0);
      FamilyItemsPlain(f, p.prev, x[0]);
      FamilyItemsPlain(f, p.next, y[0]);
      EqualConstraintMeans(x[0], y[0]);
    }
  }

  lemma {:induction false} QuietNames(p: Pair, f: Family, pk: bool, nk: bool, prior: seq<Item>, next: seq<Item>, n: nat)
    requires Prepared(p, f, prior, next) && AllKnown(prior) && AllKnown(next) && n <= |next + prior|
    requires NoUnknown(CompareUpTo(p, f, pk, nk, prior, next, n)) && Constraints(prior) == Constraints(next)
    ensures CompareUpTo(p, f, pk, nk, prior, next, n) == []
  {
    hide Prepared, AllKnown, Constraints, CompareAt;
    if n > 0 {
      NoUnknownAppend(CompareUpTo(p, f, pk, nk, prior, next, n - 1), CompareAt(p, f, pk, nk, prior, next, n - 1));
      QuietNames(p, f, pk, nk, prior, next, n - 1);
      QuietName(p, f, pk, nk, prior, next, n - 1);
    }
  }

  /** In a complete comparison, no constraint step means equal constraints. */
  lemma ConstraintsQuiet(p: Pair, f: Family, pk: bool, nk: bool, prior: seq<Item>, next: seq<Item>)
    requires Prepared(p, f, prior, next) && AllKnown(prior) && AllKnown(next)
             && NoUnknown(CompareItems(p, f, pk, nk, prior, next))
    ensures Constraints(prior) == Constraints(next) <==> CompareItems(p, f, pk, nk, prior, next) == []
  {
    hide Prepared, AllKnown, Constraints, CompareUpTo;
    if Constraints(prior) == Constraints(next) { QuietNames(p, f, pk, nk, prior, next, |next + prior|); }
    else { ConstraintsSound(p, f, pk, nk, prior, next); }
  }

  predicate AllValid(items: seq<Item>) { forall i :: 0 <= i < |items| ==> items[i].valid && SimpleName(items[i].name) }

  lemma RepeatsWitness(items: seq<Item>, name: string)
    ensures |Named(items, name)| > 1 ==> RepeatsName(items)
  {
    if |Named(items, name)| > 1 {
      NamedFrom(items, name, 0);
      var k :| 0 <= k < |items| && items[k] == Named(items, name)[0];
    }
  }

  /** Without repeated names every name has at most one entry over both families. */
  lemma OneEntry(t: Table, name: string)
    requires !AmbiguousConstraints(t)
    ensures ConstraintNameCount(t, name) <= 1
  {
    hide FkItems, CheckItems, Named, RepeatsName;
    NamedAppend(FkItems(t, t.foreignKeys), CheckItems(t.checks), name);
    RepeatsWitness(FkItems(t, t.foreignKeys) + CheckItems(t.checks), name);
  }

  lemma KnownSteps(p: Pair, f: Family, prior: seq<Item>, next: seq<Item>, i: nat)
    requires Prepared(p, f, prior, next) && AllValid(prior) && AllValid(next) && i < |next + prior| && p.scope
    requires !AmbiguousConstraints(p.prev) && !AmbiguousConstraints(p.next)
    ensures NoUnknown(CompareAt(p, f, true, true, prior, next, i))
  {
    hide FkItems, CheckItems, Named, SimpleName, AmbiguousConstraints, EqualConstraint, ConstraintNameCount;
    var name := (next + prior)[i].name;
    OneEntry(p.prev, name);
    OneEntry(p.next, name);
    CountCovers(p.prev, f, name);
    CountCovers(p.next, f, name);
    NamedNonEmpty(prior, next, i);
    if Named(prior, name) != [] { NamedFrom(prior, name, 0); }
    if Named(next, name) != [] { NamedFrom(next, name, 0); }
  }

  lemma CountCovers(t: Table, f: Family, name: string)
    ensures |Named(FamilyItems(f, t), name)| <= ConstraintNameCount(t, name)
  {
    hide Named, FkItems, CheckItems;
  }

  lemma {:induction false} KnownUpTo(p: Pair, f: Family, prior: seq<Item>, next: seq<Item>, n: nat)
    requires Prepared(p, f, prior, next) && AllValid(prior) && AllValid(next) && n <= |next + prior| && p.scope
    requires !AmbiguousConstraints(p.prev) && !AmbiguousConstraints(p.next)
    ensures NoUnknown(CompareUpTo(p, f, true, true, prior, next, n))
  {
    hide Prepared, AllValid, AmbiguousConstraints, CompareAt;
    if n > 0 {
      KnownUpTo(p, f, prior, next, n - 1);
      KnownSteps(p, f, prior, next, n - 1);
      NoUnknownAppend(CompareUpTo(p, f, true, true, prior, next, n - 1),
          CompareAt(p, f, true, true, prior, next, n - 1));
    }
  }

  /** The diagnostics over one list are silent exactly when every definition is known. */
  lemma {:induction false} UnknownItemsMeans(p: Pair, items: seq<Item>)
    ensures NoUnknown(UnknownItems(p, items)) <==> AllKnown(items)
    ensures AllKnown(items) ==> UnknownItems(p, items) == []
  {
    hide ItemKnown;
    if items != [] {
      var n := |items| - 1;
      var t := TableUnknown(Some(p.prev), Some(p.next));
      UnknownItemsMeans(p, items[..n]);
      MarkerKnown(!ItemKnown(items[n]), t);
      NoUnknownAppend(UnknownItems(p, items[..n]), Marker(!ItemKnown(items[n]), t));
    }
  }
}
