/** orm/migration/preflight_collect.go and preflight_view.go: what a collection
    records, what seals it, and when the verdict may be "satisfied". */
module PreflightEvidence {
  import opened Text
  import opened SchemaModel
  import opened PreflightPlan

  /** Nanoseconds since the first of January of year one; the zero time is unset. */
  type Time = int

  const ZERO_TIME: Time := 0
  const MAX_TIME: Time := 315537897600000000000
  const MAX_AGE: Time := 300000000000
  const GENERATIONS := 0x1_0000_0000_0000_0000

  // ---------------------------------------------------------------------- records

  datatype Result = Result(targets: string, requirement: Digest, count: Option<int>, completed: bool, status: string,
      code: string)

  datatype Collection = Collection(planId: Digest, fingerprint: Digest, domain: string, started: Time, finished: Time,
                                   completed: bool, code: string, results: seq<Result>)

  /** A collection together with its digest field; Digest is taken as injective. */
  datatype Sealed = Sealed(collection: Collection, digest: Option<Collection>)

  /** The private receipt; only a collector makes one. */
  datatype Receipt = Receipt(owner: nat, generation: nat, digest: Collection, plan: Digest)

  datatype Preflight = Preflight(version: int, plan: Plan, collection: Option<Sealed>, receipt: Option<Receipt>)

  const SCHEMA_DOMAIN := "goquent.preflight.schema.v1"

  function Fingerprint(p: Plan): Digest { SchemaDigest(p.current, p.references) }

  predicate ResultsOk(results: seq<Result>, requirements: seq<Requirement>) {
    && |results| <= |requirements|
    && (forall i :: 0 <= i < |results| ==>
          && results[i].requirement == requirements[i].id
          && (results[i].count.Some? ==> results[i].count.value >= 0)
             && (results[i].completed ==> results[i].count.Some?))
    && (forall i, j :: 0 <= i < j < |results| ==> results[i].requirement != results[j].requirement)
  }

  /** ValidatePreflightSource. */
  predicate ValidSource(p: Preflight) {
    && p.version == 1 && Build(p.plan) == Some(p.plan)
    && (p.collection.Some? ==>
          var s := p.collection.value;
          && s.digest == Some(s.collection) && s.collection.planId == p.plan.id && s.collection.domain == SCHEMA_DOMAIN
          && s.collection.fingerprint == Fingerprint(p.plan) && ResultsOk(s.collection.results, p.plan.requirements))
  }

  // --------------------------------------------------------------- what is observed

  /** One pass over the targets of one requirement, and its count query. */
  datatype TargetCheck = Failed
      | Checked(targets: string, status: string, code: string, query: bool, count: Option<int>)

  /** Everything one Collect reads: schemas before and after, targets twice, clocks. */
  datatype Observation = Observation(started: Time, finished: Time, before: Option<Digest>, checks: seq<TargetCheck>,
                                     again: seq<Option<string>>, after: Option<Digest>, alive: bool)

  predicate Observes(o: Observation, p: Plan) { |o.checks| == |p.requirements| && |o.again| == |p.requirements| }

  function KnownStatus(s: string): string {
    if s in {"satisfied", "unsatisfied", "unknown", "unsupported"} then s else "unknown"
  }

  const CODES := {"PREFLIGHT_OK", "PREFLIGHT_INPUT", "PREFLIGHT_FAILED", "PREFLIGHT_MISSING", "PREFLIGHT_ORIGIN",
      "PREFLIGHT_EXPIRED",
                  "PREFLIGHT_TIME", "PREFLIGHT_BINDING", "PREFLIGHT_SCOPE", "PREFLIGHT_PHASE",
                      "PREFLIGHT_COMPATIBILITY", "PREFLIGHT_DEPENDENCY",
                  "PREFLIGHT_EXTERNAL_WORK", "PREFLIGHT_DEFINITION", "PREFLIGHT_UNSUPPORTED", "PREFLIGHT_NONZERO",
                      "PREFLIGHT_VISIBILITY",
                  "PREFLIGHT_SCHEMA_CHANGED"}

  function KnownCode(s: string): string { if s in CODES then s else "PREFLIGHT_DEFINITION" }

  function Blank0(r: Requirement): Result { Result("", r.id, None, false, KnownStatus(r.status), KnownCode(r.code)) }

  /** The result of one requirement, and whether the collection stops there. */
  function Measure(r: Requirement, c: TargetCheck): (Result, bool) {
    if r.status != "pending" then (Blank0(r), false)
    else
      match c
      case Failed => (Blank0(r), true)
      case Checked(targets, status, code, query, count) =>
        var seen := Blank0(r).(targets := targets);
        if status != "satisfied" then (seen.(status := status, code := code), false)
        else if !query then (seen.(status := "unsupported", code := "PREFLIGHT_UNSUPPORTED"), false)
        else if count.None? then (seen, true)
        else (seen.(count := count, completed := true, status := "satisfied", code := "PREFLIGHT_OK"), false)
  }

  /** The first loop over requirements: results so far, and whether a read failed. */
  function MeasureUpTo(p: Plan, o: Observation, n: nat): (seq<Result>, bool)
    requires n <= |p.requirements| && Observes(o, p)
  {
    if n == 0 then ([], false)
    else
      var (rs, stopped) := MeasureUpTo(p, o, n - 1);
      if stopped then (rs, true)
      else
        var (r, stop) := Measure(p.requirements[n - 1], o.checks[n - 1]);
        (rs + [r], stop)
  }

  /** The second loop: targets read again must be the same. */
  function RecheckUpTo(p: Plan, o: Observation, rs: seq<Result>, n: nat): Option<string>
    requires n <= |p.requirements| <= |rs| && Observes(o, p)
  {
    if n == 0 then None
    else if RecheckUpTo(p, o, rs, n - 1).Some? then RecheckUpTo(p, o, rs, n - 1)
    else if p.requirements[n - 1].status != "pending" then None
    else if o.again[n - 1].None? then Some("PREFLIGHT_FAILED")
    else if o.again[n - 1].value != rs[n - 1].targets then Some("PREFLIGHT_SCHEMA_CHANGED")
    else None
  }

  /** The code Collect finishes with, and the results gathered by then. */
  function Finishing(p: Plan, o: Observation): (string, seq<Result>)
    requires Observes(o, p)
  {
    if o.before.None? then ("PREFLIGHT_FAILED", [])
    else if o.before.value != Fingerprint(p) then ("PREFLIGHT_SCHEMA_CHANGED", [])
    else
      var n := |p.requirements|;
      var (rs, stopped) := MeasureUpTo(p, o, n);
      if stopped || |rs| != n then ("PREFLIGHT_FAILED", rs)
      else if RecheckUpTo(p, o, rs, n).Some? then (RecheckUpTo(p, o, rs, n).value, rs)
      else if o.after.None? then ("PREFLIGHT_FAILED", rs)
      else if o.after != o.before then ("PREFLIGHT_SCHEMA_CHANGED", rs)
      else if !o.alive then ("PREFLIGHT_FAILED", rs)
      else ("PREFLIGHT_OK", rs)
  }

  function Collected(p: Plan, o: Observation): Collection
    requires Observes(o, p)
  {
    var (code, rs) := Finishing(p, o);
    Collection(p.id, Fingerprint(p), SCHEMA_DOMAIN, o.started, o.finished, code == "PREFLIGHT_OK", code, rs)
  }

  // --------------------------------------------------------------------- verdicts

  datatype Line = Line(status: string, code: string)

  datatype View = View(status: string, code: string, checks: seq<Line>)

  datatype Collector = Collector(dialect: string, generation: nat, closed: bool)

  function Rank(s: string): nat {
    if s == "satisfied" then 0 else if s == "unsatisfied" then 1 else if s == "unsupported" then 2 else 3
  }

  function LineOf(req: Requirement, r: Result): Line {
    if req.status != "pending" then Line(KnownStatus(req.status), KnownCode(req.code))
    else if r.completed && r.count.Some? && r.status == "satisfied" && r.code == "PREFLIGHT_OK" then
      if r.count.value > 0 then Line("unsatisfied", "PREFLIGHT_NONZERO") else Line("satisfied", "PREFLIGHT_OK")
    else if KnownStatus(r.status) == "satisfied" then Line("unknown", "PREFLIGHT_MISSING")
    else Line(KnownStatus(r.status), KnownCode(r.code))
  }

  /** The worst check so far; the first of equal rank stays. */
  function VerdictUpTo(requirements: seq<Requirement>, results: seq<Result>, n: nat): Line
    requires n <= |requirements| == |results|
  {
    if n == 0 then Line("satisfied", "PREFLIGHT_OK")
    else
      var v, c := VerdictUpTo(requirements, results, n - 1), LineOf(requirements[n - 1], results[n - 1]);
      if Rank(c.status) > Rank(v.status) then c else v
  }

  predicate TimesOk(c: Collection, now: Time) {
    0 < now < MAX_TIME && c.started != ZERO_TIME && c.finished != ZERO_TIME && c.started <= c.finished <= now
  }

  /** The receipt names this collector's latest generation, this collection and this plan. */
  predicate Receipted(p: Preflight, s: Sealed, id: nat, owner: Collector) {
    && !owner.closed && p.receipt.Some?
    && p.receipt.value.owner == id && p.receipt.value.generation == owner.generation
    && s.digest == Some(p.receipt.value.digest) && p.receipt.value.plan == p.plan.id
  }

  /** Evaluate on collector id; None without one. */
  function Verdict(p: Preflight, now: Time, maxAge: Time, owner: Option<(nat, Collector)>): Line {
    if maxAge <= 0 || maxAge > MAX_AGE || !ValidSource(p) then Line("unknown", "PREFLIGHT_INPUT")
    else if p.collection.None? then Line("unknown", "PREFLIGHT_MISSING")
    else
      var s := p.collection.value;
      var c := s.collection;
      if !c.completed || c.code != "PREFLIGHT_OK"
         then Line("unknown", if KnownCode(c.code) == "PREFLIGHT_OK" then "PREFLIGHT_FAILED" else KnownCode(c.code))
      else if !TimesOk(c, now) then Line("unknown", "PREFLIGHT_TIME")
      else if now - c.started > maxAge then Line("unknown", "PREFLIGHT_EXPIRED")
      else if owner.None? || !Receipted(p, s, owner.value.0, owner.value.1) then Line("unknown", "PREFLIGHT_ORIGIN")
      else if |c.results| != |p.plan.requirements| then Line("unknown", "PREFLIGHT_MISSING")
      else VerdictUpTo(p.plan.requirements, c.results, |c.results|)
  }

  /** A pending requirement was measured and counted no row. */
  predicate ZeroAt(req: Requirement, r: Result) {
    if req.status == "pending"
       then r.completed && r.count.Some? && r.count.value <= 0 && r.status == "satisfied" && r.code == "PREFLIGHT_OK"
    else req.status == "satisfied"
  }

  predicate AllZero(requirements: seq<Requirement>, results: seq<Result>) {
    |requirements| == |results| && forall i :: 0 <= i < |results| ==> ZeroAt(requirements[i], results[i])
  }

  lemma {:induction false} VerdictMeans(requirements: seq<Requirement>, results: seq<Result>, n: nat)
    requires n <= |requirements| == |results|
    ensures VerdictUpTo(requirements, results, n).status == "satisfied"
            <==> forall i :: 0 <= i < n ==> ZeroAt(requirements[i], results[i])
    ensures Rank(VerdictUpTo(requirements, results, n).status) == 0
            <==> VerdictUpTo(requirements, results, n).status == "satisfied"
  {
    hide LineOf, ZeroAt;
    if n > 0 {
      VerdictMeans(requirements, results, n - 1);
      LineMeans(requirements[n - 1], results[n - 1]);
    }
  }

  lemma LineMeans(req: Requirement, r: Result)
    ensures LineOf(req, r).status == "satisfied" <==> ZeroAt(req, r)
    ensures Rank(LineOf(req, r).status) == 0 <==> LineOf(req, r).status == "satisfied"
  {
    hide KnownCode;
    StatusMeans(req.status);
    StatusMeans(r.status);
  }

  lemma StatusMeans(s: string)
    ensures KnownStatus(s) == "satisfied" <==> s == "satisfied"
  {
  }

  // ------------------------------------------------------------ requirement statuses

  predicate Born(r: Requirement) { r.status == "unknown" || r.status == "pending" || r.status == "unsupported" }

  predicate Statuses(rs: seq<Requirement>) { forall i :: 0 <= i < |rs| ==> Born(rs[i]) }

  lemma StatusesAppend(a: seq<Requirement>, b: seq<Requirement>)
    requires Statuses(a) && Statuses(b)
    ensures Statuses(a + b)
  {
    hide Born;
  }

  lemma WhenBorn(b: bool, r: Requirement)
    requires Born(r)
    ensures Statuses(When(b, r)) && Statuses([r]) && Born(Pending(r, b))
  {
  }

  lemma NullStatuses(d: Definition, phase: string, t: Table, found: bool, desired: Table, hasDesired: bool)
    ensures Statuses(NullRequirements(d, phase, t, found, desired, hasDesired))
  {
    hide ColumnsOk, Born, Statuses, When, Pending;
    var r := Base(t).(kind := "null_count", columns := [d.column], semantics := "null_rows");
    var declared := exists i :: 0 <= i < |desired.columns| && desired.columns[i].name == d.column
                     && desired.columns[i].nullableKnown && !desired.columns[i].nullable;
    BornBase(t, "PREFLIGHT_PHASE", r);
    WhenBorn(phase != "contract", Base(t).(code := "PREFLIGHT_PHASE"));
    WhenBorn(found && hasDesired && declared && ColumnsOk(r.columns, t), r);
    WhenBorn(true, Pending(r, found && hasDesired && declared && ColumnsOk(r.columns, t)));
    WhenBorn(true, Base(t));
    StatusesAppend(When(phase != "contract", Base(t).(code := "PREFLIGHT_PHASE")),
        [Pending(r, found && hasDesired && declared && ColumnsOk(r.columns, t))]);
    NoStatuses();
  }

  lemma NoStatuses()
    ensures Statuses([])
  {
  }

  lemma BornBase(t: Table, code: string, r: Requirement)
    ensures Born(Base(t)) && Born(Base(t).(code := code))
    ensures r.status == "unknown" || r.status == "unsupported" ==> Born(r)
  {
  }

  lemma UniqueStatuses(d: Definition, t: Table, found: bool, desired: Table, hasDesired: bool)
    ensures Statuses(UniqueRequirements(d, t, found, desired, hasDesired))
  {
    hide IndexNamed, UniqueRequirement, Born, Statuses, When;
    NoStatuses();
    BornBase(t, "", Base(t));
    WhenBorn(true, Base(t));
    match (if hasDesired then IndexNamed(desired.indexes, d.index) else None) {
      case None =>
      case Some(idx) =>
        var differs := d.desiredIndex.Some? && d.desiredIndex.value != idx;
        WhenBorn(differs, Base(t));
        BornUnique(idx, t, found, desired);
        WhenBorn(true, UniqueRequirement(idx, t, found, desired));
        StatusesAppend(When(differs, Base(t)), [UniqueRequirement(idx, t, found, desired)]);
    }
  }

  lemma BornUnique(idx: Index, t: Table, found: bool, desired: Table)
    ensures Born(UniqueRequirement(idx, t, found, desired))
  {
    hide ColumnsOk, ValidExtendedIndex, KeyNames;
  }

  lemma OrphanStatuses(d: Definition, t: Table, found: bool, desired: Table, hasDesired: bool)
    ensures Statuses(OrphanRequirements(d, t, found, desired, hasDesired))
  {
    hide ColumnsOk, ForeignKeyNamed, ValidForeignKey;
  }

  lemma KindStatuses(d: Definition, phase: string, t: Table, found: bool, desired: Table, hasDesired: bool)
    ensures Statuses(KindRequirements(d, phase, t, found, desired, hasDesired))
  {
    hide NullRequirements, UniqueRequirements, OrphanRequirements;
    NullStatuses(d, phase, t, found, desired, hasDesired);
    UniqueStatuses(d, t, found, desired, hasDesired);
    OrphanStatuses(d, t, found, desired, hasDesired);
  }

  lemma DoubtStatuses(t: Table, b: bool, code: string, rest: seq<Requirement>)
    requires Statuses(rest)
    ensures Statuses(rest + When(b, Base(t).(code := code)))
  {
    BornBase(t, code, Base(t));
    WhenBorn(b, Base(t).(code := code));
    StatusesAppend(rest, When(b, Base(t).(code := code)));
  }

  lemma StepStatuses(p: Plan, i: nat)
    requires i < |p.steps|
    ensures Statuses(RequirementsFor(p, i))
  {
    hide TableFor, KindRequirements, When, Statuses;
    var s := p.steps[i];
    var d := s.definition;
    var (t, found) := TableFor(p.current.tables, d.table);
    var (desired, hasDesired) := TableFor(p.desired.tables, d.table);
    assert Base(t).(code := "PREFLIGHT_DEFINITION") == Base(t);
    NoStatuses();
    DoubtStatuses(t, p.incomplete, "PREFLIGHT_DEFINITION", []);
    var a := When(p.incomplete, Base(t));
    assert [] + a == a;
    DoubtStatuses(t, PhaseRank(s.phase.phase) == 0, "PREFLIGHT_PHASE", a);
    var b := a + When(PhaseRank(s.phase.phase) == 0, Base(t).(code := "PREFLIGHT_PHASE"));
    DoubtStatuses(t, s.phase.oldReaders != "compatible"
        || s.phase.oldWriters != "compatible", "PREFLIGHT_COMPATIBILITY", b);
    var c := b + When(s.phase.oldReaders != "compatible"
        || s.phase.oldWriters != "compatible", Base(t).(code := "PREFLIGHT_COMPATIBILITY"));
    DoubtStatuses(t, i > 0 && s.phase.phase == "contract" && s.phase.dependsOn == [], "PREFLIGHT_DEPENDENCY", c);
    var e := c + When(i > 0 && s.phase.phase == "contract"
        && s.phase.dependsOn == [], Base(t).(code := "PREFLIGHT_DEPENDENCY"));
    DoubtStatuses(t, d.sql != "" || p.sql != "" || p.statements != [], "PREFLIGHT_DEFINITION", e);
    var f := e + When(d.sql != "" || p.sql != "" || p.statements != [], Base(t));
    DoubtStatuses(t, d.currentTable.Some? && d.currentTable.value != t, "PREFLIGHT_DEFINITION", f);
    var g := f + When(d.currentTable.Some? && d.currentTable.value != t, Base(t));
    DoubtStatuses(t, d.desiredTable.Some? && d.desiredTable.value != desired, "PREFLIGHT_DEFINITION", g);
    var doubts := g + When(d.desiredTable.Some? && d.desiredTable.value != desired, Base(t));
    if d.unknown {
      BornBase(t, "", Base(t));
      WhenBorn(true, Base(t));
      StatusesAppend(doubts, [Base(t)]);
    } else {
      KindStatuses(d, s.phase.phase, t, found, desired, hasDesired);
      StatusesAppend(doubts, KindRequirements(d, s.phase.phase, t, found, desired, hasDesired));
      DoubtStatuses(t, s.phase.phase == "backfill", "PREFLIGHT_EXTERNAL_WORK",
          doubts + KindRequirements(d, s.phase.phase, t, found, desired, hasDesired));
    }
  }

  lemma {:induction false} IdentifiedStatuses(rs: seq<Requirement>, id: Digest)
    requires Statuses(rs)
    ensures Statuses(Identified(rs, id))
  {
    if rs != [] { IdentifiedStatuses(rs[..|rs| - 1], id); }
  }

  lemma {:induction false} NumberStatuses(p: Plan, n: nat)
    requires n <= |p.steps| && Statuses(p.requirements)
    ensures Statuses(Number(p, n).requirements)
  {
    hide RequirementsFor, Identified, Statuses;
    if n > 0 {
      NumberStatuses(p, n - 1);
      var q := Number(p, n - 1);
      var id := StepDigest(q.id, n - 1, q.steps[n - 1]);
      var named := q.(steps := q.steps[n - 1 := q.steps[n - 1].(id := id)]);
      StepStatuses(named, n - 1);
      IdentifiedStatuses(RequirementsFor(named, n - 1), id);
      StatusesAppend(q.requirements, Identified(RequirementsFor(named, n - 1), id));
    }
  }

  /** No derived requirement is born satisfied. */
  lemma BuiltStatuses(p: Plan)
    requires Build(p).Some?
    ensures Statuses(Build(p).value.requirements)
  {
    hide Number, CanonicalSchema, CanonicalSchemas, SameScope, StepsOrdered, Unnamed, SortBy;
    var cleared := p.(current := CanonicalSchema(p.current).value, desired := CanonicalSchema(p.desired).value,
                      references := SortBy(CanonicalSchemas(p.references).value, ScopeName), id := Blank,
                          requirements := [], steps := Unnamed(p.steps));
    NumberStatuses(cleared.(id := PlanDigest(cleared)), |cleared.steps|);
  }

  // ------------------------------------------------------------- what was measured

  /** The observation behind a satisfied verdict: schemas as planned before and after,
      every requirement's targets fine both times, and every count zero. */
  predicate MeasuredZero(p: Plan, o: Observation) {
    && Observes(o, p) && o.before == Some(Fingerprint(p)) && o.after == Some(Fingerprint(p)) && o.alive
    && forall i :: 0 <= i < |p.requirements| ==>
         && p.requirements[i].status == "pending" && o.checks[i].Checked? && o.checks[i].status == "satisfied"
            && o.checks[i].query
         && o.checks[i].count == Some(0) && o.again[i] == Some(o.checks[i].targets)
  }

  lemma {:induction false} MeasureAt(p: Plan, o: Observation, n: nat, i: nat)
    requires i < n <= |p.requirements| && Observes(o, p)
    requires !MeasureUpTo(p, o, n).1
    ensures |MeasureUpTo(p, o, n).0| == n && MeasureUpTo(p, o, n).0[i] == Measure(p.requirements[i], o.checks[i]).0
  {
    hide Measure;
    if n > 1 {
      MeasureAt(p, o, n - 1, if i < n - 1 then i else 0);
    }
  }

  lemma {:induction false} RecheckAt(p: Plan, o: Observation, rs: seq<Result>, n: nat, i: nat)
    requires i < n <= |p.requirements| <= |rs| && Observes(o, p) && RecheckUpTo(p, o, rs, n).None?
    ensures p.requirements[i].status == "pending" ==> o.again[i] == Some(rs[i].targets)
  {
    if i < n - 1 { RecheckAt(p, o, rs, n - 1, i); }
  }

  lemma {:induction false} RecheckCodes(p: Plan, o: Observation, rs: seq<Result>, n: nat)
    requires n <= |p.requirements| <= |rs| && Observes(o, p)
    ensures RecheckUpTo(p, o, rs, n).Some? ==> RecheckUpTo(p, o, rs, n).value != "PREFLIGHT_OK"
  {
    if n > 0 { RecheckCodes(p, o, rs, n - 1); }
  }

  /** A collection that finished well: what its branches have established. */
  lemma FinishedWell(p: Plan, o: Observation)
    requires Observes(o, p) && Finishing(p, o).0 == "PREFLIGHT_OK"
    ensures var n := |p.requirements|;
            var (rs, stopped) := MeasureUpTo(p, o, n);
            && !stopped && |rs| == n && Finishing(p, o).1 == rs && RecheckUpTo(p, o, rs, n).None?
            && o.before == Some(Fingerprint(p)) && o.after == o.before && o.alive
  {
    hide MeasureUpTo, RecheckUpTo;
    var n := |p.requirements|;
    var (rs, stopped) := MeasureUpTo(p, o, n);
    if |rs| == n { RecheckCodes(p, o, rs, n); }
  }

  lemma CollectedMeans(p: Plan, o: Observation)
    requires Observes(o, p) && Statuses(p.requirements) && ResultsOk(Collected(p, o).results, p.requirements)
    requires Collected(p, o).completed && AllZero(p.requirements, Collected(p, o).results)
    ensures MeasuredZero(p, o)
  {
    hide Measure, Statuses, MeasureUpTo, RecheckUpTo, Finishing;
    FinishedWell(p, o);
    var n := |p.requirements|;
    var (rs, stopped) := MeasureUpTo(p, o, n);
    forall i | 0 <= i < n ensures
        && p.requirements[i].status == "pending" && o.checks[i].Checked? && o.checks[i].status == "satisfied"
           && o.checks[i].query
        && o.checks[i].count == Some(0) && o.again[i] == Some(o.checks[i].targets)
    {
      MeasureAt(p, o, n, i);
      RecheckAt(p, o, rs, n, i);
      NeverBornSatisfied(p.requirements, i);
      MeasureMeans(p.requirements[i], o.checks[i]);
    }
  }

  lemma NeverBornSatisfied(rs: seq<Requirement>, i: nat)
    requires i < |rs| && Statuses(rs)
    ensures rs[i].status != "satisfied"
  {
  }

  lemma MeasureMeans(r: Requirement, c: TargetCheck)
    requires r.status == "pending"
    ensures var m := Measure(r, c).0;
            m.completed && m.count.Some? ==>
              c.Checked? && c.status == "satisfied" && c.query && c.count == m.count && m.targets == c.targets
  {
  }
}
