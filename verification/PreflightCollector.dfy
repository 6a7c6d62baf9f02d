/** The loops of buildPreflight, Collect and evaluatePreflight, and a collector whose
    fields they change, proved against the specifications. */
module PreflightCollector {
  import opened Text
  import opened SchemaModel
  import opened PreflightPlan
  import opened PreflightEvidence
  import opened PreflightRuns

  // ------------------------------------------------------------------ buildPreflight

  /** The pass that checks dependencies and phases; last is the highest phase so far. */
  method CheckSteps(steps: seq<Step>) returns (ok: bool)
    ensures ok == StepsOrdered(steps)
  {
    hide PhaseRank;
    var last := 0;
    for i := 0 to |steps|
      invariant last == LastRank(steps, i)
      invariant forall k :: 0 <= k < i ==> DependenciesOk(steps[k].phase.dependsOn, k)
      invariant forall k :: 0 <= k < i && PhaseRank(steps[k].phase.phase) > 0 ==>
                  PhaseRank(steps[k].phase.phase) >= LastRank(steps, k)
    {
      var fine := CheckDependencies(steps[i].phase.dependsOn, i);
      if !fine { return false; }
      var rank := PhaseRank(steps[i].phase.phase);
      if rank > 0 && rank < last { return false; }
      if rank > 0 { last := rank; }
    }
    return true;
  }

  method CheckDependencies(d: seq<int>, i: nat) returns (ok: bool)
    ensures ok == DependenciesOk(d, i)
  {
    var seen: set<int> := {};
    for k := 0 to |d|
      invariant forall x :: x in seen <==> x in d[..k]
      invariant DependenciesOk(d[..k], i)
    {
      if d[k] < 0 || d[k] >= i || d[k] in seen {
        assert d[k] in seen ==> exists l :: 0 <= l < k && d[l] == d[k];
        return false;
      }
      assert d[..k + 1] == d[..k] + [d[k]];
      seen := seen + {d[k]};
    }
    assert d[..|d|] == d;
    return true;
  }

  /** Step IDs and requirements, one step at a time. */
  method NumberSteps(p: Plan) returns (q: Plan)
    ensures q == Number(p, |p.steps|)
  {
    hide RequirementsFor, Identified;
    q := p;
    for i := 0 to |p.steps|
      invariant q == Number(p, i)
    {
      var id := StepDigest(q.id, i, q.steps[i]);
      q := q.(steps := q.steps[i := q.steps[i].(id := id)]);
      var more := IdentifyLoop(RequirementsFor(q, i), id);
      q := q.(requirements := q.requirements + more);
    }
  }

  method IdentifyLoop(rs: seq<Requirement>, stepId: Digest) returns (out: seq<Requirement>)
    ensures out == Identified(rs, stepId)
  {
    out := [];
    assert rs[..|rs|] == rs && rs[..0] == [];
    for j := 0 to |rs|
      invariant out == Identified(rs[..j], stepId)
    {
      assert rs[..j + 1][..|rs[..j + 1]| - 1] == rs[..j];
      var r := rs[j].(stepId := stepId);
      out := out + [r.(id := RequirementDigest(r))];
    }
  }

  /** buildPreflight: canonical schemas, scope and step checks, then the numbering. */
  method BuildPreflight(p: Plan) returns (r: Option<Plan>)
    ensures r == Build(p)
  {
    hide Sortable, CanonicalTables, CanonicalSchemas, SameScope, StepsOrdered, Number, Unnamed, SortBy, ScopeName;
    if p.steps == [] || |p.steps| > 64 || |p.references| > 64 { return None; }
    var current, desired := CanonicalSchema(p.current), CanonicalSchema(p.desired);
    var references := CanonicalSchemas(p.references);
    if current.None? || desired.None? || references.None? || !SameScope(current.value.context, desired.value.context) {
      return None;
    }
    for i := 0 to |references.value|
      invariant forall k :: 0 <= k < i ==>
                  && references.value[k].context.Some?
                  && references.value[k].context.value.dialect == current.value.context.value.dialect
    {
      var s := references.value[i];
      if s.context.None? || s.context.value.dialect != current.value.context.value.dialect { return None; }
    }
    if !DistinctBy([current.value] + references.value, ScopeName) { return None; }
    var ordered := CheckSteps(p.steps);
    if !ordered { return None; }
    var cleared := p.(current := current.value, desired := desired.value,
        references := SortBy(references.value, ScopeName),
                      id := Blank, requirements := [], steps := Unnamed(p.steps));
    var named := NumberSteps(cleared.(id := PlanDigest(cleared)));
    if |named.requirements| > 64 { return None; }
    return Some(named);
  }

  // --------------------------------------------------------------------- Collect

  /** The measuring loops of Collect, with their early ends. */
  method CollectEvidence(p: Plan, o: Observation) returns (col: Collection)
    requires Observes(o, p)
    ensures col == Collected(p, o)
  {
    hide Measure;
    var base := Collection(p.id, Fingerprint(p), SCHEMA_DOMAIN, o.started, o.finished, false, "PREFLIGHT_FAILED", []);
    if o.before.None? { return base; }
    if o.before.value != Fingerprint(p) { return base.(code := "PREFLIGHT_SCHEMA_CHANGED"); }
    var results, stopped := MeasureLoop(p, o);
    if stopped || |results| != |p.requirements| { return base.(results := results); }
    var trouble := RecheckLoop(p, o, results);
    if trouble.Some? {
      RecheckCodes(p, o, results, |p.requirements|);
      return base.(code := trouble.value, results := results);
    }
    if o.after.None? { return base.(results := results); }
    if o.after != o.before { return base.(code := "PREFLIGHT_SCHEMA_CHANGED", results := results); }
    if !o.alive { return base.(results := results); }
    return base.(code := "PREFLIGHT_OK", completed := true, results := results);
  }

  method MeasureLoop(p: Plan, o: Observation) returns (results: seq<Result>, stopped: bool)
    requires Observes(o, p)
    ensures (results, stopped) == MeasureUpTo(p, o, |p.requirements|)
  {
    hide Measure;
    results, stopped := [], false;
    var i := 0;
    while i < |p.requirements| && !stopped
      invariant 0 <= i <= |p.requirements| && (results, stopped) == MeasureUpTo(p, o, i)
    {
      var (r, stop) := Measure(p.requirements[i], o.checks[i]);
      results, stopped := results + [r], stop;
      i := i + 1;
    }
    if stopped { StoppedStays(p, o, i, |p.requirements|); }
  }

  lemma {:induction false} StoppedStays(p: Plan, o: Observation, m: nat, n: nat)
    requires m <= n <= |p.requirements| && Observes(o, p) && MeasureUpTo(p, o, m).1
    ensures MeasureUpTo(p, o, n) == MeasureUpTo(p, o, m)
  {
    hide Measure;
    if m < n { StoppedStays(p, o, m, n - 1); }
  }

  method RecheckLoop(p: Plan, o: Observation, results: seq<Result>) returns (trouble: Option<string>)
    requires Observes(o, p) && |results| == |p.requirements|
    ensures trouble == RecheckUpTo(p, o, results, |p.requirements|)
  {
    for i := 0 to |p.requirements|
      invariant RecheckUpTo(p, o, results, i).None?
    {
      if p.requirements[i].status == "pending" {
        if o.again[i].None? { TroubleStays(p, o, results, i + 1, |p.requirements|); return Some("PREFLIGHT_FAILED"); }
        if o.again[i].value != results[i].targets {
          TroubleStays(p, o, results, i + 1, |p.requirements|);
          return Some("PREFLIGHT_SCHEMA_CHANGED");
        }
      }
    }
    return None;
  }

  lemma {:induction false} TroubleStays(p: Plan, o: Observation, rs: seq<Result>, m: nat, n: nat)
    requires m <= n <= |p.requirements| <= |rs| && Observes(o, p) && RecheckUpTo(p, o, rs, m).Some?
    ensures RecheckUpTo(p, o, rs, n) == RecheckUpTo(p, o, rs, m)
  {
    if m < n { TroubleStays(p, o, rs, m, n - 1); }
  }

  // -------------------------------------------------------------------- Evaluate

  /** The aggregation loop of evaluatePreflight. */
  method Aggregate(requirements: seq<Requirement>, results: seq<Result>) returns (v: View)
    requires |requirements| == |results|
    ensures Line(v.status, v.code) == VerdictUpTo(requirements, results, |results|)
    ensures |v.checks| == |results| && forall i :: 0 <= i < |results|
                                        ==> v.checks[i] == LineOf(requirements[i], results[i])
  {
    hide LineOf;
    v := View("satisfied", "PREFLIGHT_OK", []);
    for i := 0 to |results|
      invariant Line(v.status, v.code) == VerdictUpTo(requirements, results, i)
      invariant |v.checks| == i && forall k :: 0 <= k < i ==> v.checks[k] == LineOf(requirements[k], results[k])
    {
      var check := LineOf(requirements[i], results[i]);
      v := v.(checks := v.checks + [check]);
      if Rank(check.status) > Rank(v.status) { v := v.(status := check.status, code := check.code); }
    }
  }

  /** One process: its collectors with their generations, and the artifacts it holds. */
  class Process {
    var state: State

    constructor ()
      ensures state == Init && Inv(state)
    {
      state := Init;
    }

    /** Collect under the collector's mutex. */
    method Collect(c: nat, i: nat, j: nat, o: Observation, detached: bool)
      requires Inv(state) && c in state.collectors && i in state.artifacts && Observes(o, state.artifacts[i].plan)
      modifies this
      ensures Inv(state) && state == AfterCollect(old(state), c, i, j, o, detached)
    {
      hide Build, Inv, Collected;
      StepKeeps(state, Action.Collect(c, i, j, o, detached));
      var p, k := state.artifacts[i], state.collectors[c];
      if !ValidSource(p) || k.closed || p.plan.current.context.None?
         || p.plan.current.context.value.dialect != k.dialect {
        return;
      }
      var generation := if k.generation == GENERATIONS - 1 then 0 else k.generation + 1;
      GenerationWraps(state, c);
      if generation == 0 {
        state := state.(collectors := state.collectors[c := k.(generation := 0, closed := true)]);
        return;
      }
      state := state.(collectors := state.collectors[c := k.(generation := generation)], seals := state.seals - {c});
      if !detached { return; }
      var col := CollectEvidence(p.plan, o);
      var out := Preflight(p.version, p.plan, Some(Sealed(col, Some(col))),
          Some(Receipt(c, generation, col, p.plan.id)));
      state := state.(seals := state.seals[c := Seal(p.plan, o)], artifacts := state.artifacts[j := out]);
    }

    method Close(c: nat)
      requires Inv(state) && c in state.collectors
      modifies this
      ensures Inv(state) && state == Apply(old(state), Action.Close(c))
    {
      hide Inv;
      StepKeeps(state, Action.Close(c));
      state := state.(collectors := state.collectors[c := state.collectors[c].(closed := true)]);
    }

    /** Evaluate; a satisfied answer is about the latest Collect of this open collector. */
    method Evaluate(c: nat, i: nat, now: Time, maxAge: Time) returns (v: View)
      requires Inv(state) && c in state.collectors && i in state.artifacts
      ensures Line(v.status, v.code) == Verdict(state.artifacts[i], now, maxAge, Some((c, state.collectors[c])))
      ensures v.status == "satisfied" ==>
                && !state.collectors[c].closed && c in state.seals && state.artifacts[i].plan == state.seals[c].plan
                && MeasuredZero(state.seals[c].plan, state.seals[c].observation)
                && now - state.seals[c].observation.started <= maxAge <= MAX_AGE
    {
      hide Inv, ValidSource, MeasuredZero, TimesOk, VerdictUpTo, LineOf;
      var p, k := state.artifacts[i], state.collectors[c];
      v := View("unknown", "PREFLIGHT_INPUT", []);
      if maxAge <= 0 || maxAge > MAX_AGE || !ValidSource(p) { return; }
      if p.collection.None? { return v.(code := "PREFLIGHT_MISSING"); }
      var s := p.collection.value;
      if !s.collection.completed || s.collection.code != "PREFLIGHT_OK" {
        var code := KnownCode(s.collection.code);
        return v.(code := if code == "PREFLIGHT_OK" then "PREFLIGHT_FAILED" else code);
      }
      if !TimesOk(s.collection, now) { return v.(code := "PREFLIGHT_TIME"); }
      if now - s.collection.started > maxAge { return v.(code := "PREFLIGHT_EXPIRED"); }
      if !Receipted(p, s, c, k) { return v.(code := "PREFLIGHT_ORIGIN"); }
      if |s.collection.results| != |p.plan.requirements| { return v.(code := "PREFLIGHT_MISSING"); }
      v := Aggregate(p.plan.requirements, s.collection.results);
      if v.status == "satisfied" { SatisfiedUnder(state, i, c, now, maxAge); }
    }
  }

  lemma GenerationWraps(s: State, c: nat)
    requires Inv(s) && c in s.collectors
    ensures (s.collectors[c].generation + 1) % GENERATIONS == if s.collectors[c].generation == GENERATIONS - 1 then 0
            else s.collectors[c].generation + 1
  {
    hide ReceiptOk;
  }
}
