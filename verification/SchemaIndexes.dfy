/** The index steps of a complete comparison. They turn the current indexes into the
    desired ones exactly when no two current indexes share a key: indexMap keeps one
    index for each lower-case key, while validity counts exact names. */
module SchemaIndexes {
  import opened Text
  import opened SchemaModel
  import opened SchemaDiff
  import opened SchemaMeaning

  predicate AttributesComplete(xs: seq<Index>) { forall i :: 0 <= i < |xs| ==> xs[i].attributes == Complete }

  lemma ValidMeans(i: Index, t: Table)
    requires i.attributes == Complete && ValidIndex(i, t)
    ensures SimpleName(i.name) && NameKey(i.name) == i.name && IndexCount(t.indexes, i.name) == 1
  {
    hide SimpleName, NameKey, IndexCount, KnownColumns, ExpressionKnown, KeyPartKnown, KeyColumns;
    SimpleNameIsItsKey(i.name);
  }

  lemma {:induction false} FindIndexMeans(xs: seq<Index>, k: string)
    requires NameKey(k) == k
    ensures FindIndex(xs, k).None? ==> k !in Indexes(xs)
    ensures FindIndex(xs, k).Some? && FindIndex(xs, k).value.name == k
            ==> k in Indexes(xs) && Indexes(xs)[k] == IndexMean(FindIndex(xs, k).value)
  {
    hide IndexMean, NameKey;
    if xs != [] { FindIndexMeans(xs[..|xs| - 1], k); }
  }

  lemma {:induction false} FoundIndexIsThere(xs: seq<Index>, k: string)
    ensures FindIndex(xs, k).Some? ==> FindIndex(xs, k).value in xs && NameKey(FindIndex(xs, k).value.name) == k
  {
    hide NameKey;
    if xs != [] { FoundIndexIsThere(xs[..|xs| - 1], k); }
  }

  lemma {:induction false} FindIndexFinds(xs: seq<Index>, i: nat)
    requires i < |xs|
    ensures FindIndex(xs, NameKey(xs[i].name)).Some?
  {
    hide NameKey;
    if i < |xs| - 1 { FindIndexFinds(xs[..|xs| - 1], i); }
  }

  lemma {:induction false} CountedOnce(xs: seq<Index>, n: nat, name: string)
    requires n < |xs| && xs[n].name == name
    ensures IndexCount(xs, name) >= IndexCount(xs[..n], name) + 1
  {
    if n < |xs| - 1 {
      CountedOnce(xs[..|xs| - 1], n, name);
      assert xs[..|xs| - 1][..n] == xs[..n];
    }
  }

  lemma {:induction false} NeverCounted(xs: seq<Index>, name: string)
    ensures IndexCount(xs, name) == 0 <==> name !in Indexes(xs)
  {
    hide IndexMean;
    if xs != [] { NeverCounted(xs[..|xs| - 1], name); }
  }

  /** A valid index is the only one of its exact name. */
  lemma NewName(xs: seq<Index>, n: nat)
    requires n < |xs| && IndexCount(xs, xs[n].name) == 1
    ensures xs[n].name !in Indexes(xs[..n])
  {
    CountedOnce(xs, n, xs[n].name);
    NeverCounted(xs[..n], xs[n].name);
  }

  lemma IndexesOneMore(xs: seq<Index>, n: nat)
    requires n < |xs|
    ensures Indexes(xs[..n + 1]) == Indexes(xs[..n])[xs[n].name := IndexMean(xs[n])]
  {
    hide IndexMean;
    assert xs[..n + 1][..n] == xs[..n];
  }

  lemma {:induction false} IndexIsMeant(xs: seq<Index>, n: nat)
    requires n < |xs|
    ensures xs[n].name in Indexes(xs)
    ensures IndexCount(xs, xs[n].name) == 1 ==> Indexes(xs)[xs[n].name] == IndexMean(xs[n])
  {
    hide IndexMean;
    var m := |xs| - 1;
    if n < m {
      IndexIsMeant(xs[..m], n);
      NeverCounted(xs[..m], xs[n].name);
    }
  }

  // ------------------------------------------------------------- wanted indexes

  lemma EqualIndexMeans(a: Index, b: Index)
    ensures EqualIndex(a, b) <==> IndexMean(a) == IndexMean(b)
  {
  }

  /** What a step list without markers says about one wanted index. */
  lemma KnownIndex(a: Table, b: Table, i: Index)
    requires NoUnknown(DesiredIndexSteps(a, b, i))
    ensures ValidIndex(i, b)
    ensures var prior := FindIndex(a.indexes, NameKey(i.name));
            && (prior.Some? ==>
                  && ValidIndex(prior.value, a)
                  && !(EqualIndex(prior.value, i) && RawDiffers(prior.value, i)))
            && DesiredIndexSteps(a, b, i)
               == if prior.None? then [AddIndexStep(b.name, i)]
                  else Marker(!EqualIndex(prior.value, i),
                     Plain(AlterIndex, b.name).(index := i.name, currentIndex := prior, desiredIndex := Some(i)))
  {
    hide ValidIndex, NameKey, FindIndex, EqualIndex, RawDiffers, UniqueIndexName;
    var prior := FindIndex(a.indexes, NameKey(i.name));
    var u := UnknownStep(b.name, "", i.name).(desiredIndex := Some(i), currentIndex := prior);
    MarkerKnown(true, u);
    NoUnknownAppend([u], Marker(prior.None? && UniqueIndexName(i, b), AddIndexStep(b.name, i)));
  }

  lemma DesiredIndexEffect(a: Table, b: Table, n: nat)
    requires n < |b.indexes| && AttributesComplete(a.indexes) && AttributesComplete(b.indexes)
    requires NoUnknown(DesiredIndexSteps(a, b, b.indexes[n]))
    ensures Fold(DesiredIndexSteps(a, b, b.indexes[n]), Indexes(a.indexes) + Indexes(b.indexes[..n]), ApplyIndex)
         == Indexes(a.indexes) + Indexes(b.indexes[..n + 1])
  {
    hide ValidIndex, NameKey, FindIndex, EqualIndex, RawDiffers, UniqueIndexName, DesiredIndexSteps, Indexes,
         IndexMean, SimpleName, IndexCount;
    var i := b.indexes[n];
    var m := Indexes(a.indexes) + Indexes(b.indexes[..n]);
    KnownIndex(a, b, i);
    ValidMeans(i, b);
    NewName(b.indexes, n);
    IndexesOneMore(b.indexes, n);
    FindIndexMeans(a.indexes, i.name);
    FoundIndexIsThere(a.indexes, i.name);
    var prior := FindIndex(a.indexes, i.name);
    if prior.None? {
      FoldOne(AddIndexStep(b.name, i), m, ApplyIndex);
    } else {
      ValidMeans(prior.value, a);
      EqualIndexMeans(prior.value, i);
      if !EqualIndex(prior.value, i) { FoldOne(DesiredIndexSteps(a, b, i)[0], m, ApplyIndex); }
    }
  }

  lemma {:induction false} DesiredIndexesEffect(a: Table, b: Table, n: nat)
    requires n <= |b.indexes| && AttributesComplete(a.indexes) && AttributesComplete(b.indexes)
             && NoUnknown(DesiredIndexesUpTo(a, b, n))
    ensures Fold(DesiredIndexesUpTo(a, b, n), Indexes(a.indexes), ApplyIndex)
            == Indexes(a.indexes) + Indexes(b.indexes[..n])
  {
    hide DesiredIndexSteps, IndexMean, AttributesComplete;
    if n > 0 {
      var init, last := DesiredIndexesUpTo(a, b, n - 1), DesiredIndexSteps(a, b, b.indexes[n - 1]);
      NoUnknownAppend(init, last);
      DesiredIndexesEffect(a, b, n - 1);
      FoldAppend(init, last, Indexes(a.indexes), ApplyIndex);
      DesiredIndexEffect(a, b, n - 1);
    }
  }

  // ------------------------------------------------------------ indexes left over

  predicate Leftover(b: Table, i: Index) { FindIndex(b.indexes, NameKey(i.name)).None? }

  function Removed(a: Table, b: Table, n: nat): set<string>
    requires n <= |a.indexes|
  {
    if n == 0 then {} else Removed(a, b, n - 1) + if Leftover(b, a.indexes[n - 1]) then {a.indexes[n - 1].name} else {}
  }

  lemma {:induction false} RemovedMeans(a: Table, b: Table, n: nat, name: string)
    requires n <= |a.indexes|
    ensures name in Removed(a, b, n)
            <==> exists i :: 0 <= i < n && a.indexes[i].name == name && Leftover(b, a.indexes[i])
  {
    hide Leftover;
    if n > 0 { RemovedMeans(a, b, n - 1, name); }
  }

  /** A leftover index of a complete comparison is valid and gets one drop step. */
  lemma KnownLeftover(a: Table, b: Table, i: Index)
    requires NoUnknown(CurrentIndexSteps(a, b, i))
    ensures Leftover(b, i) ==> ValidIndex(i, a)
    ensures CurrentIndexSteps(a, b, i) == Marker(Leftover(b, i), DropIndexStep(b.name, i))
  {
    hide ValidIndex, NameKey, FindIndex, UniqueIndexName;
    var u := UnknownStep(b.name, "", i.name).(currentIndex := Some(i));
    MarkerKnown(true, u);
    NoUnknownAppend([u], Marker(UniqueIndexName(i, a), DropIndexStep(b.name, i)));
  }

  lemma CurrentIndexEffect(a: Table, b: Table, n: nat, m: map<string, Index>)
    requires n < |a.indexes| && NoUnknown(CurrentIndexSteps(a, b, a.indexes[n]))
    ensures Fold(CurrentIndexSteps(a, b, a.indexes[n]), m - Removed(a, b, n), ApplyIndex) == m - Removed(a, b, n + 1)
  {
    hide Leftover, CurrentIndexSteps;
    var i := a.indexes[n];
    KnownLeftover(a, b, i);
    if Leftover(b, i) { FoldOne(DropIndexStep(b.name, i), m - Removed(a, b, n), ApplyIndex); }
  }

  lemma {:induction false} CurrentIndexesEffect(a: Table, b: Table, n: nat, m: map<string, Index>)
    requires n <= |a.indexes| && NoUnknown(CurrentIndexesUpTo(a, b, n))
    ensures Fold(CurrentIndexesUpTo(a, b, n), m, ApplyIndex) == m - Removed(a, b, n)
  {
    hide CurrentIndexSteps, Leftover;
    if n > 0 {
      var init, last := CurrentIndexesUpTo(a, b, n - 1), CurrentIndexSteps(a, b, a.indexes[n - 1]);
      NoUnknownAppend(init, last);
      CurrentIndexesEffect(a, b, n - 1, m);
      FoldAppend(init, last, m, ApplyIndex);
      CurrentIndexEffect(a, b, n - 1, m);
    }
  }

  // ---------------------------------------------------------------- the exact verdict

  function IndexSteps(a: Table, b: Table): seq<Step> {
    DesiredIndexesUpTo(a, b, |b.indexes|) + CurrentIndexesUpTo(a, b, |a.indexes|)
  }

  /** No two indexes of the table share a lower-case key. */
  predicate DistinctIndexKeys(t: Table) {
    forall i, j :: 0 <= i < j < |t.indexes| ==> NameKey(t.indexes[i].name) != NameKey(t.indexes[j].name)
  }

  lemma IndexesEffect(a: Table, b: Table)
    requires AttributesComplete(a.indexes) && AttributesComplete(b.indexes) && NoUnknown(IndexSteps(a, b))
    ensures Fold(IndexSteps(a, b), Indexes(a.indexes), ApplyIndex)
         == (Indexes(a.indexes) + Indexes(b.indexes)) - Removed(a, b, |a.indexes|)
  {
    hide DesiredIndexesUpTo, CurrentIndexesUpTo, AttributesComplete, Removed, Indexes, Fold;
    NoUnknownAppend(DesiredIndexesUpTo(a, b, |b.indexes|), CurrentIndexesUpTo(a, b, |a.indexes|));
    DesiredIndexesEffect(a, b, |b.indexes|);
    assert b.indexes[..|b.indexes|] == b.indexes;
    CurrentIndexesEffect(a, b, |a.indexes|, Indexes(a.indexes) + Indexes(b.indexes));
    FoldAppend(DesiredIndexesUpTo(a, b, |b.indexes|), CurrentIndexesUpTo(a, b, |a.indexes|), Indexes(a.indexes),
        ApplyIndex);
  }

  lemma {:induction false} NoUnknownAt(a: Table, b: Table, n: nat, m: nat, k: nat)
    requires n <= |b.indexes| && m <= |a.indexes|
    ensures k < n && NoUnknown(DesiredIndexesUpTo(a, b, n)) ==> NoUnknown(DesiredIndexSteps(a, b, b.indexes[k]))
    ensures k < m && NoUnknown(CurrentIndexesUpTo(a, b, m)) ==> NoUnknown(CurrentIndexSteps(a, b, a.indexes[k]))
  {
    hide DesiredIndexSteps, CurrentIndexSteps;
    if k < n {
      NoUnknownAppend(DesiredIndexesUpTo(a, b, n - 1), DesiredIndexSteps(a, b, b.indexes[n - 1]));
      NoUnknownAt(a, b, n - 1, m, k);
    } else if k < m {
      NoUnknownAppend(CurrentIndexesUpTo(a, b, m - 1), CurrentIndexSteps(a, b, a.indexes[m - 1]));
      NoUnknownAt(a, b, n, m - 1, k);
    }
  }

  /** What completeness says about every index of the two tables. */
  lemma CompleteIndexes(a: Table, b: Table, k: nat)
    requires AttributesComplete(a.indexes) && AttributesComplete(b.indexes) && NoUnknown(IndexSteps(a, b))
    ensures k < |b.indexes| ==>
              var i := b.indexes[k];
              SimpleName(i.name) && NameKey(i.name) == i.name && IndexCount(b.indexes, i.name) == 1
    ensures k < |a.indexes| && Leftover(b, a.indexes[k]) ==>
              var i := a.indexes[k];
              SimpleName(i.name) && NameKey(i.name) == i.name && IndexCount(a.indexes, i.name) == 1
  {
    hide DesiredIndexSteps, CurrentIndexSteps, DesiredIndexesUpTo, CurrentIndexesUpTo, ValidIndex, SimpleName,
         NameKey, IndexCount, Leftover;
    NoUnknownAppend(DesiredIndexesUpTo(a, b, |b.indexes|), CurrentIndexesUpTo(a, b, |a.indexes|));
    NoUnknownAt(a, b, |b.indexes|, |a.indexes|, k);
    if k < |b.indexes| { KnownIndex(a, b, b.indexes[k]); ValidMeans(b.indexes[k], b); }
    if k < |a.indexes| && Leftover(b, a.indexes[k]) { KnownLeftover(a, b, a.indexes[k]); ValidMeans(a.indexes[k], a); }
  }

  /** The current index that a desired key finds is valid, so its name is that key. */
  lemma CompletePrior(a: Table, b: Table, k: nat)
    requires AttributesComplete(a.indexes) && AttributesComplete(b.indexes) && NoUnknown(IndexSteps(a, b))
    requires k < |a.indexes| && !Leftover(b, a.indexes[k])
    ensures var key := NameKey(a.indexes[k].name);
            var prior := FindIndex(a.indexes, key);
            prior.Some? && prior.value.name == key && IndexCount(a.indexes, key) == 1 && key in Indexes(b.indexes)
  {
    hide DesiredIndexSteps, CurrentIndexSteps, DesiredIndexesUpTo, CurrentIndexesUpTo, ValidIndex, SimpleName,
         NameKey, IndexCount, Indexes, FindIndex, EqualIndex, RawDiffers;
    var key := NameKey(a.indexes[k].name);
    FindIndexFinds(a.indexes, k);
    FoundIndexIsThere(a.indexes, key);
    FoundIndexIsThere(b.indexes, key);
    var i := FindIndex(b.indexes, key).value;
    var j :| 0 <= j < |b.indexes| && b.indexes[j] == i;
    CompleteIndexes(a, b, j);
    IndexIsMeant(b.indexes, j);
    NoUnknownAppend(DesiredIndexesUpTo(a, b, |b.indexes|), CurrentIndexesUpTo(a, b, |a.indexes|));
    NoUnknownAt(a, b, |b.indexes|, |a.indexes|, j);
    KnownIndex(a, b, i);
    ValidMeans(FindIndex(a.indexes, key).value, a);
  }

  lemma {:induction false} IndexNamed(xs: seq<Index>, name: string) returns (i: nat)
    requires name in Indexes(xs)
    ensures i < |xs| && xs[i].name == name
  {
    hide IndexMean;
    i := |xs| - 1;
    if xs[i].name != name { i := IndexNamed(xs[..i], name); }
  }

  lemma TwoOfOneName(xs: seq<Index>, i: nat, j: nat)
    requires i < j < |xs| && xs[i].name == xs[j].name
    ensures IndexCount(xs, xs[i].name) > 1
  {
    CountedOnce(xs, j, xs[j].name);
    IndexIsMeant(xs[..j], i);
    NeverCounted(xs[..j], xs[i].name);
  }

  /** A desired name is its own key, and never leftover. */
  lemma DesiredNameKept(a: Table, b: Table, name: string)
    requires AttributesComplete(a.indexes) && AttributesComplete(b.indexes) && NoUnknown(IndexSteps(a, b))
    requires name in Indexes(b.indexes)
    ensures NameKey(name) == name && name !in Removed(a, b, |a.indexes|)
  {
    hide IndexSteps, Indexes, NameKey, SimpleName, IndexCount, AttributesComplete, Removed;
    var j := IndexNamed(b.indexes, name);
    CompleteIndexes(a, b, j);
    FindIndexFinds(b.indexes, j);
    RemovedMeans(a, b, |a.indexes|, name);
  }

  /** A current name that stays although no desired index has it. */
  lemma StaleName(a: Table, b: Table, k: nat)
    requires AttributesComplete(a.indexes) && AttributesComplete(b.indexes) && NoUnknown(IndexSteps(a, b))
    requires k < |a.indexes| && !Leftover(b, a.indexes[k]) && a.indexes[k].name != NameKey(a.indexes[k].name)
    ensures a.indexes[k].name in Indexes(a.indexes) && a.indexes[k].name !in Indexes(b.indexes)
            && a.indexes[k].name !in Removed(a, b, |a.indexes|)
  {
    hide IndexSteps, Indexes, NameKey, IndexCount, AttributesComplete, Removed;
    var name := a.indexes[k].name;
    IndexIsMeant(a.indexes, k);
    if name in Indexes(b.indexes) { DesiredNameKept(a, b, name); }
    RemovedMeans(a, b, |a.indexes|, name);
  }

  lemma SharedKeySpoils(a: Table, b: Table, i: nat, j: nat)
    requires AttributesComplete(a.indexes) && AttributesComplete(b.indexes) && NoUnknown(IndexSteps(a, b))
    requires i < j < |a.indexes| && NameKey(a.indexes[i].name) == NameKey(a.indexes[j].name)
    ensures exists k :: 0 <= k < |a.indexes| && !Leftover(b, a.indexes[k])
             && a.indexes[k].name != NameKey(a.indexes[k].name)
  {
    hide IndexSteps, Indexes, NameKey, IndexCount, AttributesComplete, Removed, SimpleName, FindIndex;
    if a.indexes[i].name == a.indexes[j].name { TwoOfOneName(a.indexes, i, j); }
    CompleteIndexes(a, b, i);
    CompleteIndexes(a, b, j);
    if !Leftover(b, a.indexes[i]) { CompletePrior(a, b, i); }
  }

  lemma DistinctKeysSuffice(a: Table, b: Table, name: string)
    requires AttributesComplete(a.indexes) && AttributesComplete(b.indexes) && NoUnknown(IndexSteps(a, b))
    requires DistinctIndexKeys(a) && name in Indexes(a.indexes)
    ensures name in Indexes(b.indexes) || name in Removed(a, b, |a.indexes|)
  {
    hide IndexSteps, Indexes, NameKey, IndexCount, AttributesComplete, Removed, FindIndex;
    var i := IndexNamed(a.indexes, name);
    RemovedMeans(a, b, |a.indexes|, name);
    if !Leftover(b, a.indexes[i]) {
      CompletePrior(a, b, i);
      FoundIndexIsThere(a.indexes, NameKey(name));
      var j :| 0 <= j < |a.indexes| && a.indexes[j] == FindIndex(a.indexes, NameKey(name)).value;
      assert NameKey(a.indexes[i].name) == NameKey(a.indexes[j].name);
    }
  }

  /** Index soundness holds exactly when the current index keys are distinct. */
  lemma IndexesExact(a: Table, b: Table)
    requires AttributesComplete(a.indexes) && AttributesComplete(b.indexes) && NoUnknown(IndexSteps(a, b))
    ensures Fold(IndexSteps(a, b), Indexes(a.indexes), ApplyIndex) == Indexes(b.indexes) <==> DistinctIndexKeys(a)
  {
    hide IndexSteps, Indexes, NameKey, AttributesComplete, Removed, FindIndex, Fold;
    IndexesEffect(a, b);
    var x, y, gone := Indexes(a.indexes), Indexes(b.indexes), Removed(a, b, |a.indexes|);
    if DistinctIndexKeys(a) {
      forall name | name in x ensures name in y || name in gone { DistinctKeysSuffice(a, b, name); }
      forall name | name in y ensures name !in gone { DesiredNameKept(a, b, name); }
      assert (x + y) - gone == y;
    } else {
      var i, j :| 0 <= i < j < |a.indexes| && NameKey(a.indexes[i].name) == NameKey(a.indexes[j].name);
      SharedKeySpoils(a, b, i, j);
      var k :| 0 <= k < |a.indexes| && !Leftover(b, a.indexes[k]) && a.indexes[k].name != NameKey(a.indexes[k].name);
      StaleName(a, b, k);
      assert a.indexes[k].name in (x + y) - gone;
    }
  }

  // ------------------------------------------------------- nothing to do, or nothing known

  /** Equal definitions under one name never carry two different raw texts. */
  predicate RawConsistent(a: Table, b: Table) {
    forall i, j ::
      (0 <= i < |a.indexes| && 0 <= j < |b.indexes| && a.indexes[i].name == b.indexes[j].name
          && EqualIndex(a.indexes[i], b.indexes[j]))
      ==> !RawDiffers(a.indexes[i], b.indexes[j])
  }

  predicate IndexesValid(t: Table) {
    forall i :: 0 <= i < |t.indexes| ==> t.indexes[i].attributes == Complete && ValidIndex(t.indexes[i], t)
  }

  lemma ValidTableHasDistinctKeys(t: Table)
    requires IndexesValid(t)
    ensures DistinctIndexKeys(t)
  {
    hide ValidIndex, NameKey, SimpleName, IndexCount;
    forall i, j | 0 <= i < j < |t.indexes| ensures NameKey(t.indexes[i].name) != NameKey(t.indexes[j].name) {
      ValidMeans(t.indexes[i], t);
      ValidMeans(t.indexes[j], t);
      if t.indexes[i].name == t.indexes[j].name { TwoOfOneName(t.indexes, i, j); }
    }
  }

  /** In a valid table a key finds the index of that very name. */
  lemma ValidFind(t: Table, k: string)
    requires IndexesValid(t)
    ensures FindIndex(t.indexes, k).Some? ==> FindIndex(t.indexes, k).value.name == k
    ensures FindIndex(t.indexes, k).Some? ==> exists j ::
            0 <= j < |t.indexes| && t.indexes[j] == FindIndex(t.indexes, k).value && ValidIndex(t.indexes[j], t)
  {
    hide ValidIndex, NameKey, SimpleName, IndexCount, FindIndex;
    FoundIndexIsThere(t.indexes, k);
    if FindIndex(t.indexes, k).Some? {
      var j :| 0 <= j < |t.indexes| && t.indexes[j] == FindIndex(t.indexes, k).value;
      ValidMeans(t.indexes[j], t);
    }
  }

  lemma ValidDesired(a: Table, b: Table, n: nat)
    requires IndexesValid(a) && IndexesValid(b) && n < |b.indexes|
    ensures NoUnknown(DesiredIndexSteps(a, b, b.indexes[n])) <==>
            var prior := FindIndex(a.indexes, b.indexes[n].name);
            !(prior.Some? && EqualIndex(prior.value, b.indexes[n]) && RawDiffers(prior.value, b.indexes[n]))
  {
    hide ValidIndex, NameKey, SimpleName, IndexCount, FindIndex, EqualIndex, RawDiffers;
    var i := b.indexes[n];
    ValidMeans(i, b);
    ValidFind(a, i.name);
    var prior := FindIndex(a.indexes, i.name);
    MarkerKnown(prior.Some? && RawDiffers(prior.value, i),
        UnknownStep(b.name, "", i.name).(currentIndex := prior, desiredIndex := Some(i)));
  }

  lemma {:induction false} ValidDesiredUpTo(a: Table, b: Table, n: nat)
    requires IndexesValid(a) && IndexesValid(b) && n <= |b.indexes|
    ensures NoUnknown(DesiredIndexesUpTo(a, b, n))
            <==> forall k :: 0 <= k < n ==> NoUnknown(DesiredIndexSteps(a, b, b.indexes[k]))
  {
    hide DesiredIndexSteps, IndexesValid;
    if n > 0 {
      NoUnknownAppend(DesiredIndexesUpTo(a, b, n - 1), DesiredIndexSteps(a, b, b.indexes[n - 1]));
      ValidDesiredUpTo(a, b, n - 1);
    }
  }

  lemma {:induction false} ValidCurrentUpTo(a: Table, b: Table, n: nat)
    requires IndexesValid(a) && n <= |a.indexes|
    ensures NoUnknown(CurrentIndexesUpTo(a, b, n))
  {
    hide ValidIndex, FindIndex, NameKey, UniqueIndexName;
    if n > 0 {
      ValidCurrentUpTo(a, b, n - 1);
      NoUnknownAppend(CurrentIndexesUpTo(a, b, n - 1), CurrentIndexSteps(a, b, a.indexes[n - 1]));
    }
  }

  /** Between valid tables the only unknown is two raw texts for one equal definition. */
  lemma KnownIffRawConsistent(a: Table, b: Table)
    requires IndexesValid(a) && IndexesValid(b)
    ensures NoUnknown(IndexSteps(a, b)) <==> RawConsistent(a, b)
  {
    hide ValidIndex, FindIndex, NameKey, DesiredIndexSteps, CurrentIndexSteps, DesiredIndexesUpTo, CurrentIndexesUpTo,
         EqualIndex, RawDiffers;
    NoUnknownAppend(DesiredIndexesUpTo(a, b, |b.indexes|), CurrentIndexesUpTo(a, b, |a.indexes|));
    ValidCurrentUpTo(a, b, |a.indexes|);
    ValidDesiredUpTo(a, b, |b.indexes|);
    ValidTableHasDistinctKeys(a);
    forall k | 0 <= k < |b.indexes| ensures NoUnknown(DesiredIndexSteps(a, b, b.indexes[k]))
        <==> RawConsistentAt(a, b, k) {
      ValidDesired(a, b, k);
      SameNameFound(a, b, k);
    }
    assert RawConsistent(a, b) <==> forall k :: 0 <= k < |b.indexes| ==> RawConsistentAt(a, b, k);
  }

  predicate RawConsistentAt(a: Table, b: Table, k: nat)
    requires k < |b.indexes|
  {
    forall i :: 0 <= i < |a.indexes| && a.indexes[i].name == b.indexes[k].name ==>
      EqualIndex(a.indexes[i], b.indexes[k]) ==> !RawDiffers(a.indexes[i], b.indexes[k])
  }

  lemma SameNameFound(a: Table, b: Table, k: nat)
    requires IndexesValid(a) && IndexesValid(b) && k < |b.indexes|
    ensures var prior := FindIndex(a.indexes, b.indexes[k].name);
            RawConsistentAt(a, b, k) <==>
            !(prior.Some? && EqualIndex(prior.value, b.indexes[k]) && RawDiffers(prior.value, b.indexes[k]))
  {
    hide ValidIndex, FindIndex, NameKey, EqualIndex, RawDiffers, SimpleName, IndexCount;
    var name := b.indexes[k].name;
    ValidFind(a, name);
    ValidMeans(b.indexes[k], b);
    forall i | 0 <= i < |a.indexes|
        && a.indexes[i].name == name ensures FindIndex(a.indexes, name) == Some(a.indexes[i]) {
      FindIndexFinds(a.indexes, i);
      FoundIndexIsThere(a.indexes, name);
      ValidTableHasDistinctKeys(a);
    }
  }

  lemma QuietIndex(a: Table, b: Table, n: nat)
    requires AttributesComplete(a.indexes) && AttributesComplete(b.indexes) && NoUnknown(IndexSteps(a, b))
    requires Indexes(a.indexes) == Indexes(b.indexes)
    ensures n < |b.indexes| ==> DesiredIndexSteps(a, b, b.indexes[n]) == []
    ensures n < |a.indexes| ==> CurrentIndexSteps(a, b, a.indexes[n]) == []
  {
    hide DesiredIndexSteps, CurrentIndexSteps, DesiredIndexesUpTo, CurrentIndexesUpTo, ValidIndex, SimpleName,
         NameKey, IndexCount, Indexes, FindIndex, IndexMean, EqualIndex, RawDiffers, AttributesComplete;
    NoUnknownAppend(DesiredIndexesUpTo(a, b, |b.indexes|), CurrentIndexesUpTo(a, b, |a.indexes|));
    NoUnknownAt(a, b, |b.indexes|, |a.indexes|, n);
    CompleteIndexes(a, b, n);
    if n < |b.indexes| {
      var i := b.indexes[n];
      KnownIndex(a, b, i);
      IndexIsMeant(b.indexes, n);
      FindIndexMeans(a.indexes, i.name);
      FoundIndexIsThere(a.indexes, i.name);
      var prior := FindIndex(a.indexes, i.name);
      QuietPrior(a, prior.value);
      EqualIndexMeans(prior.value, i);
    }
    if n < |a.indexes| {
      KnownLeftover(a, b, a.indexes[n]);
      IndexIsMeant(a.indexes, n);
      if Leftover(b, a.indexes[n]) { FindIndexMeans(b.indexes, a.indexes[n].name); }
    }
  }

  lemma QuietPrior(a: Table, i: Index)
    requires AttributesComplete(a.indexes) && i in a.indexes && ValidIndex(i, a)
    ensures NameKey(i.name) == i.name
  {
    hide ValidIndex, NameKey, SimpleName, IndexCount;
    ValidMeans(i, a);
  }

  lemma {:induction false} QuietIndexes(a: Table, b: Table, n: nat, m: nat)
    requires AttributesComplete(a.indexes) && AttributesComplete(b.indexes) && NoUnknown(IndexSteps(a, b))
    requires Indexes(a.indexes) == Indexes(b.indexes) && n <= |b.indexes| && m <= |a.indexes|
    ensures DesiredIndexesUpTo(a, b, n) == [] && CurrentIndexesUpTo(a, b, m) == []
  {
    hide DesiredIndexSteps, CurrentIndexSteps, IndexSteps, Indexes, AttributesComplete;
    if n > 0 { QuietIndexes(a, b, n - 1, m); QuietIndex(a, b, n - 1); }
    else if m > 0 { QuietIndexes(a, b, 0, m - 1); QuietIndex(a, b, m - 1); }
  }

  /** In a complete comparison over distinct keys, no index step means equal indexes. */
  lemma IndexesQuiet(a: Table, b: Table)
    requires AttributesComplete(a.indexes) && AttributesComplete(b.indexes) && NoUnknown(IndexSteps(a, b))
             && DistinctIndexKeys(a)
    ensures Indexes(a.indexes) == Indexes(b.indexes) <==> IndexSteps(a, b) == []
  {
    hide DesiredIndexesUpTo, CurrentIndexesUpTo, Indexes, AttributesComplete, DistinctIndexKeys;
    if Indexes(a.indexes) == Indexes(b.indexes) {
      QuietIndexes(a, b, |b.indexes|, |a.indexes|);
    } else { IndexesExact(a, b); }
  }
}
