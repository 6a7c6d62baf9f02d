/** Which preflight plans are built: phases in order, dependencies on earlier steps, known
    schemas of one scope, and no more than 64 steps, references and requirements. */
module PreflightAcceptance {
  import opened Text
  import opened SchemaModel
  import opened PreflightPlan
  import PreflightCanon
  import PreflightRequirements

  /** The phase a is no later than b: expand, then backfill, then contract. */
  predicate NoLater(a: string, b: string) {
    || a == "expand" || b == "contract" || (a == "backfill" && b == "backfill")
  }

  const PHASES := {"expand", "backfill", "contract"}

  /** Every step depends on earlier steps, on none twice; known phases never go back,
      whatever unknown phases stand between them. */
  predicate InOrder(steps: seq<Step>) {
    && (forall i, k :: 0 <= i < |steps| && 0 <= k < |steps[i].phase.dependsOn| ==>
          0 <= steps[i].phase.dependsOn[k] < i)
    && (forall i, k, l :: 0 <= i < |steps| && 0 <= k < l < |steps[i].phase.dependsOn| ==>
          steps[i].phase.dependsOn[k] != steps[i].phase.dependsOn[l])
    && (forall i, j :: 0 <= i < j < |steps| && steps[i].phase.phase in PHASES && steps[j].phase.phase in PHASES ==>
          NoLater(steps[i].phase.phase, steps[j].phase.phase))
  }

  lemma RankMeans(a: string, b: string)
    ensures PhaseRank(a) > 0 <==> a in PHASES
    ensures a in PHASES && b in PHASES ==> (PhaseRank(a) <= PhaseRank(b) <==> NoLater(a, b))
  {
  }

  /** The last known rank is 0, or the rank of a step none after which has one. */
  lemma {:induction false} LastRankMeans(steps: seq<Step>, n: nat)
    requires n <= |steps|
    ensures LastRank(steps, n) == 0 ==> forall k :: 0 <= k < n ==> PhaseRank(steps[k].phase.phase) == 0
    ensures LastRank(steps, n) > 0 ==>
              exists k :: 0 <= k < n && PhaseRank(steps[k].phase.phase) == LastRank(steps, n)
                          && forall l :: k < l < n ==> PhaseRank(steps[l].phase.phase) == 0
  {
    hide PhaseRank;
    if n > 0 { LastRankMeans(steps, n - 1); }
  }

  predicate RanksRise(steps: seq<Step>, n: nat)
    requires n <= |steps|
  {
    forall i, j :: 0 <= i < j < n && PhaseRank(steps[i].phase.phase) > 0 && PhaseRank(steps[j].phase.phase) > 0 ==>
      PhaseRank(steps[i].phase.phase) <= PhaseRank(steps[j].phase.phase)
  }

  predicate RanksHold(steps: seq<Step>, n: nat)
    requires n <= |steps|
  {
    forall i :: 0 <= i < n && PhaseRank(steps[i].phase.phase) > 0 ==>
      PhaseRank(steps[i].phase.phase) >= LastRank(steps, i)
  }

  lemma {:induction false} LastIsHighest(steps: seq<Step>, n: nat)
    requires n <= |steps|
    ensures RanksHold(steps, n) <==> RanksRise(steps, n)
  {
    hide PhaseRank, LastRank;
    if n > 0 {
      LastIsHighest(steps, n - 1);
      LastRankMeans(steps, n - 1);
      assert RanksHold(steps, n) ==> RanksHold(steps, n - 1);
      assert RanksRise(steps, n) ==> RanksRise(steps, n - 1);
      var rank, last := PhaseRank(steps[n - 1].phase.phase), LastRank(steps, n - 1);
      if RanksHold(steps, n) && rank > 0 {
        forall i | 0 <= i < n - 1 && PhaseRank(steps[i].phase.phase) > 0
          ensures PhaseRank(steps[i].phase.phase) <= rank {
          var k :| 0 <= k < n - 1 && PhaseRank(steps[k].phase.phase) == last
                   && forall l :: k < l < n - 1 ==> PhaseRank(steps[l].phase.phase) == 0;
          assert i <= k;
        }
      }
    }
  }

  lemma PhasesExactly(steps: seq<Step>)
    ensures StepsOrdered(steps) <==> InOrder(steps)
  {
    hide PhaseRank, LastRank, NoLater;
    LastIsHighest(steps, |steps|);
    forall i, j | 0 <= i < |steps| && 0 <= j < |steps|
      ensures PhaseRank(steps[i].phase.phase) > 0 <==> steps[i].phase.phase in PHASES
      ensures steps[i].phase.phase in PHASES && steps[j].phase.phase in PHASES ==>
                (PhaseRank(steps[i].phase.phase) <= PhaseRank(steps[j].phase.phase) <==>
                 NoLater(steps[i].phase.phase, steps[j].phase.phase)) {
      RankMeans(steps[i].phase.phase, steps[j].phase.phase);
    }
    assert InOrder(steps) <==>
           RanksRise(steps, |steps|) && forall i :: 0 <= i < |steps| ==> DependenciesOk(steps[i].phase.dependsOn, i);
    assert StepsOrdered(steps) <==>
           RanksHold(steps, |steps|) && forall i :: 0 <= i < |steps| ==> DependenciesOk(steps[i].phase.dependsOn, i);
  }

  /** Both schemas and every reference are well formed; the two schemas share one scope,
      references one dialect with them, and no two of them one catalog and schema. */
  ghost predicate Scoped(p: Plan) {
    && Sortable(p.current) && Sortable(p.desired)
    && (forall i :: 0 <= i < |p.references| ==> Sortable(p.references[i]))
    && SameScope(p.current.context, p.desired.context)
    && (forall i :: 0 <= i < |p.references| ==>
          && p.references[i].context.Some? && p.current.context.Some?
          && p.references[i].context.value.dialect == p.current.context.value.dialect
          && ScopeName(p.references[i]) != ScopeName(p.current))
    && (forall i, j :: 0 <= i < j < |p.references| ==> ScopeName(p.references[i]) != ScopeName(p.references[j]))
  }

  /** How many requirements the first n steps ask for. */
  function Total(p: Plan, n: nat): nat
    requires n <= |p.steps|
  {
    if n == 0 then 0 else Total(p, n - 1) + |RequirementsFor(p, n - 1)|
  }

  lemma SortedContextKnown(s: Schema)
    requires Sortable(s)
    ensures ContextKnown(s.context) && ContextKnown(Sorted(s).context)
    ensures SortBy(s.context.value.tables, Self) == SortBy(Sorted(s).context.value.tables, Self)
  {
    hide NamesDistinct, TableIdentityValid, ContextKnown, Self;
    PreflightCanon.ContextStaysKnown(s.context, Sorted(s).context);
  }

  lemma SortedScopes(a: Schema, b: Schema)
    requires Sortable(a) && Sortable(b)
    ensures SameScope(Sorted(a).context, Sorted(b).context) <==> SameScope(a.context, b.context)
  {
    hide Sortable, ContextKnown;
    SortedContextKnown(a);
    SortedContextKnown(b);
  }

  lemma ReferencesJudged(p: Plan, dialect: string)
    requires Sortable(p.current) && PreflightCanon.AllSortable(p.references)
    ensures CanonicalSchemas(p.references).Some?
    ensures var refs := CanonicalSchemas(p.references).value;
            && (PreflightCanon.Dialects(refs, dialect) <==> PreflightCanon.Dialects(p.references, dialect))
            && (DistinctBy([Sorted(p.current)] + refs, ScopeName) <==>
                DistinctBy([p.current] + p.references, ScopeName))
  {
    hide Sortable, Sorted, ScopeName, CanonicalSchemas;
    PreflightCanon.CanonicalSchemasAt(p.references);
    var refs := CanonicalSchemas(p.references).value;
    PreflightCanon.HasContext(p.current);
    var a, b := [Sorted(p.current)] + refs, [p.current] + p.references;
    PreflightCanon.SortedScope(p.current);
    forall i | 0 <= i < |refs|
      ensures ScopeName(refs[i]) == ScopeName(p.references[i]) && refs[i].context.Some?
              && p.references[i].context.Some?
              && refs[i].context.value.dialect == p.references[i].context.value.dialect {
      PreflightCanon.HasContext(p.references[i]);
      PreflightCanon.SortedScope(p.references[i]);
    }
    assert |a| == |b| && forall i :: 0 <= i < |a| ==> ScopeName(a[i]) == ScopeName(b[i]);
  }

  lemma DistinctScopes(p: Plan)
    ensures DistinctBy([p.current] + p.references, ScopeName) <==>
              && (forall i :: 0 <= i < |p.references| ==> ScopeName(p.references[i]) != ScopeName(p.current))
              && (forall i, j :: 0 <= i < j < |p.references| ==>
                    ScopeName(p.references[i]) != ScopeName(p.references[j]))
  {
    hide ScopeName;
    var b := [p.current] + p.references;
    if DistinctBy(b, ScopeName) {
      PreflightCanon.DistinctTail(p.current, p.references);
      forall i | 0 <= i < |p.references| ensures ScopeName(p.references[i]) != ScopeName(p.current) {
        assert p.references[i] in p.references;
      }
    } else {
      if (forall i :: 0 <= i < |p.references| ==> ScopeName(p.references[i]) != ScopeName(p.current))
         && (forall i, j :: 0 <= i < j < |p.references| ==>
               ScopeName(p.references[i]) != ScopeName(p.references[j])) {
        PreflightCanon.DistinctCons(p.current, p.references);
      }
    }
  }

  lemma ScopedExactly(p: Plan)
    ensures PreflightCanon.Schemas(p).Some? <==> Scoped(p)
    ensures Scoped(p) ==>
              PreflightCanon.Schemas(p).value.0 == Sorted(p.current)
              && PreflightCanon.Schemas(p).value.1 == Sorted(p.desired)
  {
    hide Sortable, Sorted, ScopeName, CanonicalSchemas, SameScope;
    PreflightCanon.CanonicalSchemasAt(p.references);
    DistinctScopes(p);
    if Sortable(p.current) && Sortable(p.desired) {
      SortedScopes(p.current, p.desired);
      PreflightCanon.HasContext(p.current);
      PreflightCanon.SortedScope(p.current);
      if PreflightCanon.AllSortable(p.references) {
        ReferencesJudged(p, p.current.context.value.dialect);
      }
    }
  }

  lemma {:induction false} NumberTotal(p: Plan, q: Plan, n: nat)
    requires n <= |p.steps| == |q.steps| && p.current == q.current && p.desired == q.desired
    requires p.incomplete == q.incomplete && p.sql == q.sql && p.statements == q.statements
    requires forall i :: 0 <= i < |p.steps| ==>
               p.steps[i].definition == q.steps[i].definition && p.steps[i].phase == q.steps[i].phase
    ensures |Number(p, n).requirements| == |p.requirements| + Total(q, n)
  {
    hide RequirementsFor, Identified;
    if n > 0 {
      NumberTotal(p, q, n - 1);
      PreflightRequirements.NumberSteps(p, n - 1);
      var m := Number(p, n - 1);
      var id := StepDigest(m.id, n - 1, m.steps[n - 1]);
      PreflightRequirements.SameAsks(m.(steps := m.steps[n - 1 := m.steps[n - 1].(id := id)]), q, n - 1);
    }
  }

  function InCanonicalOrder(p: Plan): (q: Plan)
    ensures |q.steps| == |p.steps|
  {
    if p.current.context.None? || p.desired.context.None? then p
    else p.(current := Sorted(p.current), desired := Sorted(p.desired))
  }

  /** A plan is built exactly when it has one to 64 steps in order, at most 64 references,
      schemas in one scope and, with tables and parts in canonical order, asks for at most
      64 requirements. */
  lemma BuiltExactly(p: Plan)
    ensures Build(p).Some? <==>
              && 1 <= |p.steps| <= 64 && |p.references| <= 64 && InOrder(p.steps) && Scoped(p)
              && Total(InCanonicalOrder(p), |p.steps|) <= 64
  {
    hide InOrder, StepsOrdered, Scoped, Number, Unnamed, PreflightCanon.Schemas, Total, Build, Sorted;
    PreflightCanon.BuildParts(p);
    PhasesExactly(p.steps);
    ScopedExactly(p);
    if Scoped(p) {
      ScopedContexts(p);
      var q := InCanonicalOrder(p);
      var (current, desired, references) := PreflightCanon.Schemas(p).value;
      var cleared := p.(current := current, desired := desired, references := references, id := Blank,
          requirements := [], steps := Unnamed(p.steps));
      forall i | 0 <= i < |p.steps| ensures cleared.steps[i] == p.steps[i].(id := Blank) {
        PreflightCanon.UnnamedAt(p.steps, i);
      }
      NumberTotal(cleared.(id := PlanDigest(cleared)), q, |p.steps|);
    }
  }

  lemma ScopedContexts(p: Plan)
    requires Scoped(p)
    ensures p.current.context.Some? && p.desired.context.Some?
  {
    hide NamesDistinct;
  }
}
