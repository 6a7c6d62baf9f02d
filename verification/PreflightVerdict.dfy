/** The verdict of evaluatePreflight in all its cases, from the fields of the artifact,
    the collector and the clock. */
module PreflightVerdict {
  import opened Text
  import opened SchemaModel
  import opened PreflightPlan
  import opened PreflightEvidence

  // -------------------------------------------------------------------- one check

  /** A pending requirement whose count query ran to its end. */
  predicate Measured(q: Requirement, r: Result) {
    q.status == "pending" && r.completed && r.count.Some? && r.status == "satisfied" && r.code == "PREFLIGHT_OK"
  }

  /** The word that stands for a check no count decides: the requirement's own status, or
      that of its result when it was pending. */
  function Word(q: Requirement, r: Result): string { if q.status == "pending" then r.status else q.status }

  predicate Zero(q: Requirement, r: Result) {
    (Measured(q, r) && r.count.value <= 0) || q.status == "satisfied"
  }

  predicate Refuted(q: Requirement, r: Result) {
    if Measured(q, r) then r.count.value > 0 else Word(q, r) == "unsatisfied"
  }

  predicate Unsupported(q: Requirement, r: Result) { !Measured(q, r) && Word(q, r) == "unsupported" }

  /** Everything else is unknown, also a result that claims to be satisfied uncounted. */
  predicate Undecided(q: Requirement, r: Result) { !Zero(q, r) && !Refuted(q, r) && !Unsupported(q, r) }

  lemma LineMeansExactly(q: Requirement, r: Result)
    ensures var line := LineOf(q, r);
            && (Zero(q, r) <==> line.status == "satisfied")
            && (Refuted(q, r) <==> line.status == "unsatisfied")
            && (Unsupported(q, r) <==> line.status == "unsupported")
            && (Undecided(q, r) <==> line.status == "unknown")
            && (Measured(q, r) ==> line.code == if r.count.value > 0 then "PREFLIGHT_NONZERO" else "PREFLIGHT_OK")
            && (q.status == "pending" && r.status == "satisfied" && !Measured(q, r) ==>
                  line.code == "PREFLIGHT_MISSING")
  {
    hide KnownCode;
  }

  // ------------------------------------------------------------- the worst of all

  /** Undecided is worse than unsupported, that than refuted, that than zero. */
  function Badness(q: Requirement, r: Result): nat {
    if Undecided(q, r) then 3 else if Unsupported(q, r) then 2 else if Refuted(q, r) then 1 else 0
  }

  /** Check k is the first of the worst: all before it are better, none is worse. */
  predicate FirstWorst(qs: seq<Requirement>, rs: seq<Result>, n: nat, k: nat)
    requires k < n <= |qs| == |rs|
  {
    && (forall j :: 0 <= j < k ==> Badness(qs[j], rs[j]) < Badness(qs[k], rs[k]))
    && (forall j :: 0 <= j < n ==> Badness(qs[j], rs[j]) <= Badness(qs[k], rs[k]))
  }

  predicate WorstOf(qs: seq<Requirement>, rs: seq<Result>, n: nat, v: Line)
    requires n <= |qs| == |rs|
  {
    if forall k :: 0 <= k < n ==> Zero(qs[k], rs[k]) then v == Line("satisfied", "PREFLIGHT_OK")
    else exists k :: 0 <= k < n && !Zero(qs[k], rs[k]) && FirstWorst(qs, rs, n, k) && v == LineOf(qs[k], rs[k])
  }

  lemma Among(q: Requirement, r: Result)
    ensures Zero(q, r) || Refuted(q, r) || Unsupported(q, r) || Undecided(q, r)
  {
  }

  lemma LineRank(q: Requirement, r: Result)
    ensures Rank(LineOf(q, r).status) == Badness(q, r)
    ensures Badness(q, r) == 0 <==> Zero(q, r)
  {
    hide LineOf, Zero, Refuted, Unsupported, Undecided;
    LineMeansExactly(q, r);
    Among(q, r);
  }

  lemma RankOfSatisfied()
    ensures Rank("satisfied") == 0
  {
  }

  lemma LastIsWorst(qs: seq<Requirement>, rs: seq<Result>, n: nat)
    requires 0 < n <= |qs| == |rs| && Badness(qs[n - 1], rs[n - 1]) > 0
    requires forall j :: 0 <= j < n - 1 ==> Badness(qs[j], rs[j]) == 0
    ensures FirstWorst(qs, rs, n, n - 1)
  {
    hide Badness;
  }

  lemma WorstAppended(qs: seq<Requirement>, rs: seq<Result>, n: nat, k: nat)
    requires k < n - 1 && n <= |qs| == |rs| && FirstWorst(qs, rs, n - 1, k)
    ensures if Badness(qs[n - 1], rs[n - 1]) > Badness(qs[k], rs[k]) then FirstWorst(qs, rs, n, n - 1)
            else FirstWorst(qs, rs, n, k)
  {
    hide Badness;
  }

  lemma WorstNext(qs: seq<Requirement>, rs: seq<Result>, n: nat, v: Line)
    requires 0 < n <= |qs| == |rs| && WorstOf(qs, rs, n - 1, v)
    ensures var c := LineOf(qs[n - 1], rs[n - 1]);
            WorstOf(qs, rs, n, if Rank(c.status) > Rank(v.status) then c else v)
  {
    hide LineOf, Zero, Badness, Rank, FirstWorst;
    var q, r := qs[n - 1], rs[n - 1];
    LineRank(q, r);
    if forall k :: 0 <= k < n - 1 ==> Zero(qs[k], rs[k]) {
      RankOfSatisfied();
      if !Zero(q, r) {
        forall j | 0 <= j < n - 1 ensures Badness(qs[j], rs[j]) == 0 { LineRank(qs[j], rs[j]); }
        LastIsWorst(qs, rs, n);
      }
    } else {
      var k :| 0 <= k < n - 1 && !Zero(qs[k], rs[k]) && FirstWorst(qs, rs, n - 1, k) && v == LineOf(qs[k], rs[k]);
      LineRank(qs[k], rs[k]);
      WorstAppended(qs, rs, n, k);
    }
  }

  lemma {:induction false} WorstIsFirst(qs: seq<Requirement>, rs: seq<Result>, n: nat)
    requires n <= |qs| == |rs|
    ensures WorstOf(qs, rs, n, VerdictUpTo(qs, rs, n))
  {
    hide LineOf, Rank, FirstWorst, Zero;
    if n > 0 {
      WorstIsFirst(qs, rs, n - 1);
      WorstNext(qs, rs, n, VerdictUpTo(qs, rs, n - 1));
    }
  }

  // -------------------------------------------------------------------- the gates

  /** The collection of an artifact is sealed, complete and about its plan. */
  predicate WellSealed(p: Preflight) {
    && p.version == 1 && Build(p.plan) == Some(p.plan)
    && (p.collection.Some? ==>
          var s, c := p.collection.value, p.collection.value.collection;
          && s.digest == Some(c) && c.planId == p.plan.id && c.domain == "goquent.preflight.schema.v1"
          && c.fingerprint == SchemaDigest(p.plan.current, p.plan.references)
          && |c.results| <= |p.plan.requirements|
          && (forall i :: 0 <= i < |c.results| ==>
                && c.results[i].requirement == p.plan.requirements[i].id
                && (c.results[i].count.Some? ==> c.results[i].count.value >= 0)
                && (c.results[i].completed ==> c.results[i].count.Some?))
          && (forall i, j :: 0 <= i < j < |c.results| ==> c.results[i].requirement != c.results[j].requirement))
  }

  predicate InputGate(p: Preflight, maxAge: Time) { 0 < maxAge <= 300_000_000_000 && WellSealed(p) }

  predicate Finished(c: Collection) { c.completed && c.code == "PREFLIGHT_OK" }

  predicate TimeGate(c: Collection, now: Time) {
    0 < now < 315_537_897_600_000_000_000 && c.started != 0 && c.finished != 0 && c.started <= c.finished <= now
  }

  /** The receipt is this open collector's latest, for this collection and this plan. */
  predicate OriginGate(p: Preflight, owner: Option<(nat, Collector)>) {
    && owner.Some? && !owner.value.1.closed && p.receipt.Some? && p.collection.Some?
    && p.receipt.value.owner == owner.value.0 && p.receipt.value.generation == owner.value.1.generation
    && p.collection.value.digest == Some(p.receipt.value.digest) && p.receipt.value.plan == p.plan.id
  }

  lemma OkIsKnown()
    ensures "PREFLIGHT_OK" in CODES
  {
  }

  /** The verdict in all its cases: the first gate that fails names the code of an unknown
      verdict; past the gates the verdict is that of the first worst check. */
  lemma VerdictExactly(p: Preflight, now: Time, maxAge: Time, owner: Option<(nat, Collector)>)
    ensures var v := Verdict(p, now, maxAge, owner);
            var qs := p.plan.requirements;
            if !InputGate(p, maxAge) then v == Line("unknown", "PREFLIGHT_INPUT")
            else if p.collection.None? then v == Line("unknown", "PREFLIGHT_MISSING")
            else
              var c := p.collection.value.collection;
              if !Finished(c) then
                && v.status == "unknown" && (c.code in CODES && c.code != "PREFLIGHT_OK" ==> v.code == c.code)
                && (c.code == "PREFLIGHT_OK" ==> v.code == "PREFLIGHT_FAILED")
              else if !TimeGate(c, now) then v == Line("unknown", "PREFLIGHT_TIME")
              else if c.started + maxAge < now then v == Line("unknown", "PREFLIGHT_EXPIRED")
              else if !OriginGate(p, owner) then v == Line("unknown", "PREFLIGHT_ORIGIN")
              else if |c.results| != |qs| then v == Line("unknown", "PREFLIGHT_MISSING")
              else WorstOf(qs, c.results, |qs|, v)
  {
    hide Build, Fingerprint, WorstOf, VerdictUpTo, CODES;
    SealedMeans(p);
    OkIsKnown();
    if InputGate(p, maxAge) && p.collection.Some? {
      var c := p.collection.value.collection;
      if |c.results| == |p.plan.requirements| { WorstIsFirst(p.plan.requirements, c.results, |c.results|); }
    }
  }

  lemma SealedMeans(p: Preflight)
    ensures ValidSource(p) <==> WellSealed(p)
  {
    hide Build;
  }

  /** So past the gates a measured plan is unsatisfied exactly when a count found a row and
      no check is undecided or unsupported. */
  lemma WorstStatus(qs: seq<Requirement>, rs: seq<Result>, v: Line)
    requires |qs| == |rs| && WorstOf(qs, rs, |qs|, v)
    ensures v.status == "satisfied" <==> forall k :: 0 <= k < |qs| ==> Zero(qs[k], rs[k])
    ensures v.status == "unknown" <==> exists k :: 0 <= k < |qs| && Undecided(qs[k], rs[k])
    ensures v.status == "unsupported" <==>
              && (forall k :: 0 <= k < |qs| ==> !Undecided(qs[k], rs[k]))
              && exists k :: 0 <= k < |qs| && Unsupported(qs[k], rs[k])
    ensures v.status == "unsatisfied" <==>
              && (forall k :: 0 <= k < |qs| ==> !Undecided(qs[k], rs[k]) && !Unsupported(qs[k], rs[k]))
              && exists k :: 0 <= k < |qs| && Refuted(qs[k], rs[k])
  {
    hide LineOf, Zero, Refuted, Unsupported, Undecided, Measured;
    forall k | 0 <= k < |qs|
      ensures Badness(qs[k], rs[k]) == 0 <==> Zero(qs[k], rs[k])
      ensures Zero(qs[k], rs[k]) <==> LineOf(qs[k], rs[k]).status == "satisfied"
      ensures Refuted(qs[k], rs[k]) <==> LineOf(qs[k], rs[k]).status == "unsatisfied"
      ensures Unsupported(qs[k], rs[k]) <==> LineOf(qs[k], rs[k]).status == "unsupported"
      ensures Undecided(qs[k], rs[k]) <==> LineOf(qs[k], rs[k]).status == "unknown" {
      LineRank(qs[k], rs[k]);
      LineMeansExactly(qs[k], rs[k]);
    }
  }

  // -------------------------------------------------------------- what is recorded

  /** Nothing went wrong at this requirement: its targets were read twice alike, and a
      query that was to be made answered. */
  predicate Taken(q: Requirement, c: TargetCheck, again: Option<string>) {
    q.status == "pending" ==>
      && c.Checked? && (c.status == "satisfied" && c.query ==> c.count.Some?)
      && again == Some(c.targets)
  }

  /** A pending requirement is recorded with what was seen of it, any other with nothing. */
  predicate Recorded(q: Requirement, c: TargetCheck, r: Result) {
    && r.requirement == q.id
    && (q.status != "pending" ==> r.targets == "" && r.count.None? && !r.completed)
    && (q.status == "pending" ==>
          && c.Checked? && r.targets == c.targets
          && (if c.status == "satisfied" && c.query
             then r == Result(c.targets, q.id, c.count, true, "satisfied", "PREFLIGHT_OK")
              else
                && r.count.None? && !r.completed
                && (if c.status == "satisfied" then r.status == "unsupported" && r.code == "PREFLIGHT_UNSUPPORTED"
                    else r.status == c.status && r.code == c.code)))
  }

  lemma MeasureExactly(q: Requirement, c: TargetCheck)
    ensures Measure(q, c).1 <==>
              q.status == "pending" && (c.Failed? || (c.status == "satisfied" && c.query && c.count.None?))
    ensures !Measure(q, c).1 ==> Recorded(q, c, Measure(q, c).0)
  {
    hide KnownStatus, KnownCode;
  }

  lemma {:induction false} MeasuresAll(p: Plan, o: Observation, n: nat)
    requires n <= |p.requirements| && Observes(o, p)
    ensures MeasureUpTo(p, o, n).1 <==> exists i :: 0 <= i < n && Measure(p.requirements[i], o.checks[i]).1
    ensures !MeasureUpTo(p, o, n).1 ==>
              |MeasureUpTo(p, o, n).0| == n
              && forall i :: 0 <= i < n ==> MeasureUpTo(p, o, n).0[i] == Measure(p.requirements[i], o.checks[i]).0
  {
    hide Measure;
    if n > 0 { MeasuresAll(p, o, n - 1); }
  }

  lemma {:induction false} RechecksAll(p: Plan, o: Observation, rs: seq<Result>, n: nat)
    requires n <= |p.requirements| <= |rs| && Observes(o, p)
    ensures RecheckUpTo(p, o, rs, n).None? <==>
              forall i :: 0 <= i < n && p.requirements[i].status == "pending" ==> o.again[i] == Some(rs[i].targets)
  {
    if n > 0 { RechecksAll(p, o, rs, n - 1); }
  }

  lemma RecordedTargets(q: Requirement, c: TargetCheck, r: Result)
    requires q.status == "pending" && Recorded(q, c, r)
    ensures c.Checked? && r.targets == c.targets
  {
  }

  /** A collection completes exactly when the schemas stayed as planned, the connection
      lived and every requirement was taken; it then records every requirement in order. */
  lemma CollectedExactly(p: Plan, o: Observation)
    requires Observes(o, p)
    ensures var c, qs := Collected(p, o), p.requirements;
            && (c.completed <==>
                  && o.before == Some(SchemaDigest(p.current, p.references)) && o.after == o.before && o.alive
                  && forall i :: 0 <= i < |qs| ==> Taken(qs[i], o.checks[i], o.again[i]))
            && (c.completed <==> c.code == "PREFLIGHT_OK")
            && (c.completed ==>
                  |c.results| == |qs| && forall i :: 0 <= i < |qs| ==> Recorded(qs[i], o.checks[i], c.results[i]))
            && c.planId == p.id && c.started == o.started && c.finished == o.finished
  {
    hide Measure, MeasureUpTo, RecheckUpTo, Recorded;
    var qs := p.requirements;
    var (rs, stopped) := MeasureUpTo(p, o, |qs|);
    MeasuresAll(p, o, |qs|);
    forall i | 0 <= i < |qs|
      ensures Measure(qs[i], o.checks[i]).1 <==>
                qs[i].status == "pending"
                && (o.checks[i].Failed?
                   || (o.checks[i].status == "satisfied" && o.checks[i].query && o.checks[i].count.None?))
      ensures !Measure(qs[i], o.checks[i]).1 ==> Recorded(qs[i], o.checks[i], Measure(qs[i], o.checks[i]).0) {
      MeasureExactly(qs[i], o.checks[i]);
    }
    if !stopped {
      RechecksAll(p, o, rs, |qs|);
      RecheckCodes(p, o, rs, |qs|);
      forall i | 0 <= i < |qs| && qs[i].status == "pending" ensures o.checks[i].Checked?
          && rs[i].targets == o.checks[i].targets {
        RecordedTargets(qs[i], o.checks[i], rs[i]);
      }
    }
  }
}
