/** Collectors and artifacts over whole runs: any sequence of Open, Collect, Close,
    edits and JSON round trips, and what a satisfied verdict then proves. */
module PreflightRuns {
  import opened Text
  import opened SchemaModel
  import opened PreflightPlan
  import PreflightCanon
  import opened PreflightEvidence

  /** What the latest successful or failed Collect of a collector sealed, and the
      observation behind it. */
  datatype Seal = Seal(plan: Plan, observation: Observation)

  datatype State = State(collectors: map<nat, Collector>, seals: map<nat, Seal>, artifacts: map<nat, Preflight>)

  const Init := State(map[], map[], map[])

  datatype Action =
    | Open(collector: nat, dialect: string)
    | Close(collector: nat)
    | New(artifact: nat, preflight: Preflight)                                // a program builds or decodes one
    | Edit(source: nat, artifact: nat, plan: Plan, collection: Option<Sealed>, version: int)
    | RoundTrip(source: nat, artifact: nat)                                   // JSON drops the private receipt
    | Collect(collector: nat, source: nat, artifact: nat, observation: Observation, detached: bool)

  predicate Enabled(s: State, a: Action) {
    match a
    case Open(c, d) => c !in s.collectors
    case Close(c) => c in s.collectors
    case New(i, p) => p.receipt.None?
    case Edit(i, j, plan, collection, version) => i in s.artifacts
    case RoundTrip(i, j) => i in s.artifacts
    case Collect(c, i, j, o, detached) => c in s.collectors && i in s.artifacts && Observes(o, s.artifacts[i].plan)
  }

  /** Collect: a new attempt supersedes all earlier receipts, whatever becomes of it. */
  function AfterCollect(s: State, c: nat, i: nat, j: nat, o: Observation, detached: bool): State
    requires c in s.collectors && i in s.artifacts && Observes(o, s.artifacts[i].plan)
  {
    var p, k := s.artifacts[i], s.collectors[c];
    if !ValidSource(p) || k.closed || p.plan.current.context.None?
       || p.plan.current.context.value.dialect != k.dialect then s
    else
      var generation := (k.generation + 1) % GENERATIONS;
      if generation == 0 then s.(collectors := s.collectors[c := k.(generation := 0, closed := true)])
      else
        var bumped := s.(collectors := s.collectors[c := k.(generation := generation)], seals := s.seals - {c});
        if !detached then bumped
        else
          var col := Collected(p.plan, o);
          var out := Preflight(p.version, p.plan, Some(Sealed(col, Some(col))),
              Some(Receipt(c, generation, col, p.plan.id)));
          bumped.(seals := bumped.seals[c := Seal(p.plan, o)], artifacts := bumped.artifacts[j := out])
  }

  function Apply(s: State, a: Action): State
    requires Enabled(s, a)
  {
    match a
    case Open(c, d) => s.(collectors := s.collectors[c := Collector(d, 0, false)])
    case Close(c) => s.(collectors := s.collectors[c := s.collectors[c].(closed := true)])
    case New(i, p) => s.(artifacts := s.artifacts[i := p])
    case Edit(i, j, plan, collection, version) =>
      s.(artifacts := s.artifacts[j := s.artifacts[i].(plan := plan, collection := collection, version := version)])
    case RoundTrip(i, j) => s.(artifacts := s.artifacts[j := s.artifacts[i].(receipt := None)])
    case Collect(c, i, j, o, detached) => AfterCollect(s, c, i, j, o, detached)
  }

  ghost predicate Next(s: State, s': State) { exists a :: Enabled(s, a) && s' == Apply(s, a) }

  ghost predicate Trace(tr: seq<State>, s: State, s': State) {
    |tr| > 0 && tr[0] == s && tr[|tr| - 1] == s' && forall k :: 0 <= k < |tr| - 1 ==> Next(tr[k], tr[k + 1])
  }

  ghost predicate Reaches(s: State, s': State) { exists tr: seq<State> :: Trace(tr, s, s') }

  // -------------------------------------------------------------------- invariant

  /** A receipt is from the past of its collector; one of the latest generation names
      exactly what that collector last sealed. */
  predicate ReceiptOk(s: State, r: Receipt) {
    && r.owner in s.collectors
    && (!s.collectors[r.owner].closed ==> 0 < r.generation <= s.collectors[r.owner].generation)
    && (!s.collectors[r.owner].closed && r.generation == s.collectors[r.owner].generation ==>
          && r.owner in s.seals && Observes(s.seals[r.owner].observation, s.seals[r.owner].plan)
          && Build(s.seals[r.owner].plan) == Some(s.seals[r.owner].plan)
          && r.plan == s.seals[r.owner].plan.id
             && r.digest == Collected(s.seals[r.owner].plan, s.seals[r.owner].observation))
  }

  predicate Inv(s: State) {
    && (forall c :: c in s.collectors ==> s.collectors[c].generation < GENERATIONS)
    && (forall i :: i in s.artifacts && s.artifacts[i].receipt.Some? ==> ReceiptOk(s, s.artifacts[i].receipt.value))
  }

  lemma ReceiptStays(s: State, s': State, r: Receipt)
    requires ReceiptOk(s, r) && r.owner in s'.collectors && s'.collectors[r.owner] == s.collectors[r.owner]
    requires r.owner in s.seals ==> r.owner in s'.seals && s'.seals[r.owner] == s.seals[r.owner]
    ensures ReceiptOk(s', r)
  {
    hide Build, Collected;
  }

  /** An older receipt stays good while its collector only moves on. */
  lemma OldReceipt(s: State, s': State, r: Receipt)
    requires ReceiptOk(s, r) && r.owner in s'.collectors
    requires s'.collectors[r.owner].closed
             || (!s.collectors[r.owner].closed && s.collectors[r.owner].generation < s'.collectors[r.owner].generation)
    ensures ReceiptOk(s', r)
  {
    hide Build, Collected;
  }

  lemma CollectKeeps(s: State, c: nat, i: nat, j: nat, o: Observation, detached: bool)
    requires Inv(s) && c in s.collectors && i in s.artifacts && Observes(o, s.artifacts[i].plan)
    ensures Inv(AfterCollect(s, c, i, j, o, detached))
  {
    hide Build, Collected, ReceiptOk;
    var s' := AfterCollect(s, c, i, j, o, detached);
    var p, k := s.artifacts[i], s.collectors[c];
    if ValidSource(p) && !k.closed && p.plan.current.context.Some?
       && p.plan.current.context.value.dialect == k.dialect {
      forall a | a in s'.artifacts
          && s'.artifacts[a].receipt.Some? ensures ReceiptOk(s', s'.artifacts[a].receipt.value) {
        var r := s'.artifacts[a].receipt.value;
        if a == j && detached && (k.generation + 1) % GENERATIONS != 0 {
          NewReceipt(s, c, i, j, o);
        } else if r.owner == c {
          OwnerKnown(s, r);
          OldReceipt(s, s', r);
        } else {
          OwnerKnown(s, r);
          ReceiptStays(s, s', r);
        }
      }
    }
  }

  lemma OwnerKnown(s: State, r: Receipt)
    requires ReceiptOk(s, r)
    ensures r.owner in s.collectors
  {
  }

  lemma NewReceipt(s: State, c: nat, i: nat, j: nat, o: Observation)
    requires c in s.collectors && i in s.artifacts && Observes(o, s.artifacts[i].plan)
             && s.collectors[c].generation < GENERATIONS
    requires (s.collectors[c].generation + 1) % GENERATIONS != 0 && ValidSource(s.artifacts[i])
             && !s.collectors[c].closed
    requires s.artifacts[i].plan.current.context.Some?
             && s.artifacts[i].plan.current.context.value.dialect == s.collectors[c].dialect
    ensures var s' := AfterCollect(s, c, i, j, o, true);
            j in s'.artifacts && s'.artifacts[j].receipt.Some? && ReceiptOk(s', s'.artifacts[j].receipt.value)
  {
    hide Build, Collected;
  }

  lemma StepKeeps(s: State, a: Action)
    requires Inv(s) && Enabled(s, a)
    ensures Inv(Apply(s, a))
  {
    hide Build, Collected, ReceiptOk, AfterCollect;
    var s' := Apply(s, a);
    match a
    case Collect(c, i, j, o, detached) => CollectKeeps(s, c, i, j, o, detached);
    case Close(c) =>
      forall b | b in s'.artifacts
          && s'.artifacts[b].receipt.Some? ensures ReceiptOk(s', s'.artifacts[b].receipt.value) {
        var r := s'.artifacts[b].receipt.value;
        OwnerKnown(s, r);
        if r.owner == c { OldReceipt(s, s', r); } else { ReceiptStays(s, s', r); }
      }
    case _ =>
      forall b | b in s'.artifacts
          && s'.artifacts[b].receipt.Some? ensures ReceiptOk(s', s'.artifacts[b].receipt.value) {
        var r := s'.artifacts[b].receipt.value;
        OwnerKnown(s, r);
        ReceiptStays(s, s', r);
      }
  }

  lemma InitInv()
    ensures Inv(Init)
  {
  }

  lemma {:induction false} TraceKeeps(tr: seq<State>, s: State, s': State)
    requires Trace(tr, s, s') && Inv(s)
    ensures Inv(s')
    decreases |tr|
  {
    hide Inv, Apply, Enabled;
    if |tr| > 1 {
      var t := tr[|tr| - 2];
      assert Trace(tr[..|tr| - 1], s, t);
      TraceKeeps(tr[..|tr| - 1], s, t);
      assert Next(tr[|tr| - 2], tr[|tr| - 2 + 1]);
      var a :| Enabled(t, a) && s' == Apply(t, a);
      StepKeeps(t, a);
    }
  }

  // ------------------------------------------------------------------ the verdict

  /** Equal plan IDs of built plans mean equal plans: the ID is over everything the
      build does not recompute. */
  lemma PlanIdDetermines(p: Plan, q: Plan)
    requires Build(p) == Some(p) && Build(q) == Some(q) && p.id == q.id
    ensures p == q
  {
    hide PreflightCanon.Schemas, Number, StepsOrdered, Unnamed, Build;
    PreflightCanon.BuildParts(p);
    PreflightCanon.BuildParts(q);
    IdIsOfTheBody(p, PreflightCanon.Schemas(p).value.0, PreflightCanon.Schemas(p).value.1,
        PreflightCanon.Schemas(p).value.2);
    IdIsOfTheBody(q, PreflightCanon.Schemas(q).value.0, PreflightCanon.Schemas(q).value.1,
        PreflightCanon.Schemas(q).value.2);
  }

  function Body(p: Plan): Plan { p.(id := Blank, requirements := [], steps := Unnamed(p.steps)) }

  lemma IdIsOfTheBody(p: Plan, current: Schema, desired: Schema, references: seq<Schema>)
    requires PreflightCanon.Finish(p, current, desired, references) == Some(p)
    ensures p.id == PlanDigest(Body(p)) && p == Number(Body(p).(id := PlanDigest(Body(p))), |Body(p).steps|)
  {
    hide Number, Unnamed;
    var cleared := p.(current := current, desired := desired, references := references, id := Blank,
        requirements := [], steps := Unnamed(p.steps));
    PreflightCanon.NumberKeeps(cleared.(id := PlanDigest(cleared)), |cleared.steps|);
  }

  /** Preflight evidence over runs: whatever was collected, edited, decoded or closed
      before, "satisfied" comes only from a still-open collector, for the very plan and
      collection its latest Collect sealed, started no longer than MaxAge (at most five
      minutes) ago, whose observation found the planned schemas, measured every
      requirement and counted zero rows. */
  lemma SatisfiedMeans(s: State, i: nat, c: nat, now: Time, maxAge: Time)
    requires Reaches(Init, s) && i in s.artifacts && c in s.collectors
    requires Verdict(s.artifacts[i], now, maxAge, Some((c, s.collectors[c]))).status == "satisfied"
    ensures !s.collectors[c].closed && c in s.seals && maxAge <= MAX_AGE
    ensures Observes(s.seals[c].observation, s.seals[c].plan)
    ensures s.artifacts[i].plan == s.seals[c].plan && s.artifacts[i].collection.Some?
    ensures s.artifacts[i].collection.value.collection == Collected(s.seals[c].plan, s.seals[c].observation)
    ensures 0 <= now - s.seals[c].observation.started <= maxAge
    ensures MeasuredZero(s.seals[c].plan, s.seals[c].observation)
  {
    hide Inv, Verdict, MeasuredZero, Collected, Trace;
    var tr :| Trace(tr, Init, s);
    InitInv();
    TraceKeeps(tr, Init, s);
    SatisfiedUnder(s, i, c, now, maxAge);
  }

  lemma SatisfiedUnder(s: State, i: nat, c: nat, now: Time, maxAge: Time)
    requires Inv(s) && i in s.artifacts && c in s.collectors
    requires Verdict(s.artifacts[i], now, maxAge, Some((c, s.collectors[c]))).status == "satisfied"
    ensures !s.collectors[c].closed && c in s.seals && maxAge <= MAX_AGE
    ensures Observes(s.seals[c].observation, s.seals[c].plan)
    ensures s.artifacts[i].plan == s.seals[c].plan && s.artifacts[i].collection.Some?
    ensures s.artifacts[i].collection.value.collection == Collected(s.seals[c].plan, s.seals[c].observation)
    ensures 0 <= now - s.seals[c].observation.started <= maxAge
    ensures MeasuredZero(s.seals[c].plan, s.seals[c].observation)
  {
    hide Build, Statuses, ZeroAt, Finishing, MeasuredZero;
    var p := s.artifacts[i];
    var col := p.collection.value.collection;
    VerdictMeans(p.plan.requirements, col.results, |col.results|);
    assert ReceiptOk(s, p.receipt.value);
    PlanIdDetermines(p.plan, s.seals[c].plan);
    BuiltStatuses(p.plan);
    CollectedMeans(p.plan, s.seals[c].observation);
  }

  /** Without the collector, or after closing it, nothing is satisfied. */
  lemma NeverOffline(p: Preflight, now: Time, maxAge: Time, c: nat, k: Collector)
    ensures Verdict(p, now, maxAge, None).status != "satisfied"
    ensures k.closed ==> Verdict(p, now, maxAge, Some((c, k))).status != "satisfied"
  {
    hide ValidSource, TimesOk, KnownCode;
  }
}
