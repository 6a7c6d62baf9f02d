/** A validated handle can be executed, and exactly when a dispatch is bound to come
    before the expiries that were checked. */
module BindingProgress {
  import opened Text
  import opened PlanBinding
  import opened BindingMachine
  import opened BindingProof
  import opened BindingTheorems

  // ------------------------------------------------------------------- a job at hand

  /** One call on a handle, with what it meets while nothing changes: the handle's seal,
      the inputs, the clock and the plan found. */
  datatype Job = Job(h: nat, e: nat, id: nat, call: Call, seal: Sealed, view: QueryView, now: Time, plan: Planned)

  function ContextOf(w: Job): Option<Context> {
    if EffectiveContext(w.view, w.call.context).Some? then EffectiveContext(w.view, w.call.context).value else None
  }

  function JobMaterial(w: Job): Material
    requires w.call.current.binding.Some?
  {
    MaterialOf(w.view, w.seal, w.call, ContextOf(w), w.plan)
  }

  /** A plan that needs authorization must admit a request. */
  predicate Authorizable(w: Job) {
    w.plan.authorizationRequired ==>
      && !(w.plan.atomic && !w.plan.managed)
      && w.call.current.binding.Some? && NewRequest(JobMaterial(w), w.now, true).Some?
  }

  /** The seal can be rebuilt now, before every expiry. */
  predicate Rebuildable(w: Job) {
    && Rebuild(w.view, w.seal, w.call, w.now, w.now, true) == Some(w.plan)
    && w.now < w.seal.expires && (w.plan.expires.Some? ==> w.now < w.plan.expires.value)
    && w.view.executor.sound && w.now > ZERO_TIME
  }

  predicate AliveFor(s: State, w: Job) {
    AliveAllowed(s, ContextOf(w), true) && AliveAllowed(s, w.view.context, true)
        && AliveAllowed(s, w.call.context, true)
  }

  /** Inputs, handle and clock are those of the job. */
  predicate Steady(s: State, w: Job) {
    && w.h in s.handles && s.handles[w.h].seal == w.seal && w.call.query in s.views && s.views[w.call.query] == w.view
    && s.now == w.now && AliveFor(s, w)
  }

  predicate At(s: State, i: nat, w: Job, pc: PC) {
    Steady(s, w) && i in s.attempts && s.attempts[i] == Attempt(Some(w.h), w.call, pc)
  }

  /** The execution this job rebuilds, before it is run. */
  function Rebuilt(i: nat, w: Job, check: Option<Check>): Execution {
    Execution(Some(i), w.call.query, ContextOf(w), false, w.plan.authorizationRequired, check,
              Some(Deadline(w.seal.expires, w.plan.expires)), w.plan.expires, None)
  }

  predicate Has(s: State, w: Job, x: Execution) { w.e in s.executions && s.executions[w.e] == x }

  function Request(w: Job): Material
    requires w.call.current.binding.Some? && NewRequest(JobMaterial(w), w.now, true).Some?
  {
    NewRequest(JobMaterial(w), w.now, true).value
  }

  /** The provider allows the request for as long as it may. */
  function Allowing(w: Job): Decision
    requires w.call.current.binding.Some? && NewRequest(JobMaterial(w), w.now, true).Some?
  {
    Decision(Some(w.id), ALLOW, Request(w).ceiling)
  }

  function CheckFor(w: Job): Check
    requires w.call.current.binding.Some? && NewRequest(JobMaterial(w), w.now, true).Some?
  {
    Check(w.seal, w.call, ContextOf(w), w.plan.expires, w.id, Request(w), Allowing(w))
  }

  /** An answer that allows a fresh request until its ceiling authorizes it. */
  lemma RequestAuthorizes(m: Material, id: nat, now: Time)
    requires NewRequest(m, now, true).Some? && m.executor.sound && now > ZERO_TIME
    ensures var r := NewRequest(m, now, true).value;
            Authorized(id, r, m, Decision(Some(id), ALLOW, r.ceiling), now, true)
  {
  }

  lemma JobCheckPasses(w: Job)
    requires Rebuildable(w) && Authorizable(w) && w.plan.authorizationRequired
    ensures CheckPasses(CheckFor(w), w.view, w.now, w.now, w.now, w.now, w.now, true)
  {
    hide NewRequest, Authorized, CheckCurrent;
    RequestAuthorizes(JobMaterial(w), w.id, w.now);
    RebuildMeansSealed(w.view, w.seal, w.call, w.now, w.now, true);
  }

  function Now(w: Job, n: nat): (ts: seq<Time>)
    ensures |ts| == n && forall k :: 0 <= k < n ==> ts[k] == w.now
  {
    seq(n, k => w.now)
  }

  // ----------------------------------------------------------------------- the steps

  lemma Starts(s: State, i: nat, w: Job) returns (t: State)
    requires Steady(s, w) && i !in s.attempts && s.handles[w.h].usedBy.None? && w.e !in s.executions
             && w.id !in s.requests
    ensures At(t, i, w, Rebuilding) && Reaches(s, t)
    ensures w.e !in t.executions && w.id !in t.requests && t.sent == s.sent
  {
    hide Reaches;
    var u := Apply(s, i, Arrive(Some(w.h), w.e, w.call));
    t := Apply(u, i, Consume);
    TwoSteps(s, u, t, i, Arrive(Some(w.h), w.e, w.call), Consume);
  }

  lemma RebuildsPlan(s: State, i: nat, w: Job) returns (t: State)
    requires At(s, i, w, Rebuilding) && w.e !in s.executions && w.id !in s.requests && Rebuildable(w)
    ensures At(t, i, w, if w.plan.authorizationRequired then Requesting(w.e, w.plan) else Checking(w.e))
            && Reaches(s, t)
    ensures Has(t, w, Rebuilt(i, w, None)) && w.id !in t.requests && t.sent == s.sent
  {
    hide Reaches, CheckCurrent;
    var a := Rebuilds(w.e, Now(w, 2), true);
    t := Apply(s, i, a);
    OneStepReaches(s, i, a);
    RebuildMeansSealed(w.view, w.seal, w.call, w.now, w.now, true);
  }

  lemma RequestsAnswer(s: State, i: nat, w: Job) returns (t: State)
    requires At(s, i, w, Requesting(w.e, w.plan)) && Has(s, w, Rebuilt(i, w, None)) && w.id !in s.requests
    requires Authorizable(w) && w.plan.authorizationRequired
    ensures At(t, i, w, Deciding(w.e, w.id, Allowing(w))) && Reaches(s, t) && Has(t, w, Rebuilt(i, w, None))
    ensures w.id in t.requests && t.requests[w.id] == Request(w) && t.sent == s.sent
  {
    hide Reaches, NewRequest;
    var a, b := Action.Request(w.id, Now(w, 1), true), Reply(Some(Allowing(w)));
    var u := Apply(s, i, a);
    t := Apply(u, i, b);
    TwoSteps(s, u, t, i, a, b);
  }

  lemma StoresCheck(s: State, i: nat, w: Job) returns (t: State)
    requires Rebuildable(w) && Authorizable(w) && w.plan.authorizationRequired
    requires At(s, i, w, Deciding(w.e, w.id, Allowing(w))) && Has(s, w, Rebuilt(i, w, None))
    requires w.id in s.requests && s.requests[w.id] == Request(w)
    ensures At(t, i, w, Checking(w.e)) && Reaches(s, t) && Has(t, w, Rebuilt(i, w, Some(CheckFor(w))))
            && t.sent == s.sent
  {
    hide Reaches, NewRequest, CheckPasses, Rebuild;
    var a := FirstCheck(Now(w, 5), true);
    JobCheckPasses(w);
    t := Apply(s, i, a);
    OneStepReaches(s, i, a);
  }

  function Stored(w: Job): Option<Check>
    requires Authorizable(w)
  {
    if w.plan.authorizationRequired then Some(CheckFor(w)) else None
  }

  lemma PassesChecks(s: State, i: nat, w: Job) returns (t: State)
    requires Rebuildable(w) && Authorizable(w)
    requires At(s, i, w, Checking(w.e)) && Has(s, w, Rebuilt(i, w, Stored(w)))
    ensures At(t, i, w, PC.Binding(w.e)) && Reaches(s, t) && Has(t, w, Rebuilt(i, w, Stored(w))) && t.sent == s.sent
  {
    hide Reaches, NewRequest, CheckPasses, Rebuild;
    if w.plan.authorizationRequired { JobCheckPasses(w); }
    var a := CheckExecution(Now(w, 7), true);
    t := Apply(s, i, a);
    OneStepReaches(s, i, a);
  }

  lemma ClearsPlan(s: State, i: nat, w: Job) returns (t: State)
    requires Rebuildable(w) && Authorizable(w)
    requires At(s, i, w, PC.Binding(w.e)) && Has(s, w, Rebuilt(i, w, Stored(w)))
    ensures i in t.attempts && t.attempts[i].pc.Dispatching? && t.attempts[i].pc.execution == w.e
            && t.attempts[i].handle == Some(w.h)
    ensures Reaches(s, t) && t.now == w.now && t.sent == s.sent
            && Has(t, w, Rebuilt(i, w, Stored(w)).(usedBy := Some(i)))
  {
    hide Reaches, NewRequest, CheckPasses, Rebuild;
    if w.plan.authorizationRequired { JobCheckPasses(w); }
    var u := Apply(s, i, BindExecution);
    var a := Observe(Now(w, 5), true);
    t := Apply(u, i, a);
    TwoSteps(s, u, t, i, BindExecution, a);
  }

  /** From an unused handle to the point of dispatch, in no time. */
  lemma ReachesDispatch(s: State, i: nat, w: Job) returns (t: State)
    requires Steady(s, w) && i !in s.attempts && s.handles[w.h].usedBy.None? && w.e !in s.executions
             && w.id !in s.requests
    requires Rebuildable(w) && Authorizable(w)
    ensures i in t.attempts && t.attempts[i].pc.Dispatching? && t.attempts[i].pc.execution == w.e
            && t.attempts[i].handle == Some(w.h)
    ensures Reaches(s, t) && t.now == w.now && t.sent == s.sent
            && Has(t, w, Rebuilt(i, w, Stored(w)).(usedBy := Some(i)))
  {
    hide Reaches, At, Has, Rebuildable, NewRequest;
    var a := Starts(s, i, w);
    var b := RebuildsPlan(a, i, w);
    ReachesTransitive(s, a, b);
    var d := b;
    if w.plan.authorizationRequired {
      var c := RequestsAnswer(b, i, w);
      ReachesTransitive(s, b, c);
      d := StoresCheck(c, i, w);
      ReachesTransitive(s, c, d);
    }
    var f := PassesChecks(d, i, w);
    ReachesTransitive(s, d, f);
    t := ClearsPlan(f, i, w);
    ReachesTransitive(s, f, t);
  }

  // ------------------------------------------------------------------------ progress

  /** The job of a call that finds the inputs its handle was validated over. */
  function JobOf(s: State, h: nat, call: Call, e: nat, id: nat): Job
    requires h in s.handles && call.query in s.views && s.views[call.query].planned.Some?
  {
    Job(h, e, id, call, s.handles[h].seal, s.views[call.query], s.now, s.views[call.query].planned.value)
  }

  /** The handle was validated over the inputs of now, by this query, context and caller. */
  predicate ValidatedOver(s: State, h: nat, call: Call, expiry: Time, t0: Time, t1: Time, t2: Time) {
    && h in s.handles && call.query in s.views && s.views[call.query].executor.sound
    && Validate(call.query, s.views[call.query], call.context, call.current, expiry, t0, t1, t2, true)
       == Some(s.handles[h].seal)
  }

  lemma ValidatedRebuilds(s: State, h: nat, call: Call, e: nat, id: nat, expiry: Time, t0: Time, t1: Time, t2: Time)
    requires ValidatedOver(s, h, call, expiry, t0, t1, t2) && 0 < s.now < s.handles[h].seal.expires
    ensures s.views[call.query].planned.Some? && Rebuildable(JobOf(s, h, call, e, id))
  {
    hide Rebuild, CheckCurrent;
    SealedRebuilds(call.query, s.views[call.query], call.context, call.current, expiry, t0, t1, t2, call.family,
        s.now, s.now);
  }

  lemma FreshKeys(executions: map<nat, Execution>, requests: map<nat, Material>) returns (e: nat, id: nat)
    ensures e !in executions && id !in requests
  {
    e := Fresh(executions.Keys);
    id := Fresh(requests.Keys);
  }

  lemma {:induction false} Fresh(keys: set<nat>) returns (k: nat)
    ensures forall x :: x in keys ==> x < k
    decreases |keys|
  {
    k := 0;
    if keys != {} {
      var x :| x in keys;
      var m := Fresh(keys - {x});
      k := m + x + 1;
      forall y | y in keys ensures y < k { assert y == x || y in keys - {x}; }
    }
  }

  /** Progress: an unused handle that has not expired, met by the inputs it was validated
      over, live contexts and, where needed, a provider that allows an admissible
      request, can be dispatched, without any time passing. */
  lemma ValidatedDispatches(s: State, i: nat, h: nat, call: Call, expiry: Time, t0: Time, t1: Time, t2: Time)
      returns (e: nat, t: State)
    requires Reaches(Init, s) && i !in s.attempts && ValidatedOver(s, h, call, expiry, t0, t1, t2)
    requires s.handles[h].usedBy.None? && s.now < s.handles[h].seal.expires
    requires s.views[call.query].planned.Some? && AliveFor(s, JobOf(s, h, call, 0, 0))
             && Authorizable(JobOf(s, h, call, 0, 0))
    ensures Reaches(s, t) && t.now == s.now
    ensures |t.sent| == |s.sent| + 1 && t.sent[|s.sent|].attempt == i && t.sent[|s.sent|].execution == e
    ensures e in t.executions && t.executions[e].maker == Some(i)
    ensures t.executions[e].authorizationRequired == s.views[call.query].planned.value.authorizationRequired
  {
    hide Reaches, ValidatedOver, NewRequest, Rebuildable, CheckCurrent, Inv, Validate;
    StayReaches(Init);
    RunsKeep(Init, s);
    ValidatedInputs(s, h, call, expiry, t0, t1, t2);
    var id;
    e, id := FreshKeys(s.executions, s.requests);
    var w := JobOf(s, h, call, e, id);
    ValidatedRebuilds(s, h, call, e, id, expiry, t0, t1, t2);
    var u := ReachesDispatch(s, i, w);
    t := Apply(u, i, Send);
    OneStepReaches(u, i, Send);
    ReachesTransitive(s, u, t);
  }

  lemma ValidatedInputs(s: State, h: nat, call: Call, expiry: Time, t0: Time, t1: Time, t2: Time)
    requires ValidatedOver(s, h, call, expiry, t0, t1, t2)
    ensures h in s.handles && call.query in s.views
  {
  }

  // -------------------------------------------------------- dispatch against the expiries

  /** Attempt i waits to dispatch execution e, or has dispatched exactly it; nothing
      changes a taken execution. */
  ghost predicate Awaits(s: State, i: nat, e: nat, x: Execution) {
    && e in s.executions && s.executions[e] == x && x.usedBy == Some(i) && i in s.attempts
    && ((s.attempts[i].pc.Dispatching? && s.attempts[i].pc.execution == e) || s.attempts[i].pc == Done(Sent))
    && forall k :: 0 <= k < |s.sent| && s.sent[k].attempt == i ==> s.sent[k].execution == e
  }

  lemma AwaitsStays(s: State, j: nat, a: Action, i: nat, e: nat, x: Execution)
    requires Inv(s) && Enabled(s, j, a) && Awaits(s, i, e, x)
    ensures Awaits(Apply(s, j, a), i, e, x)
  {
    hide Inv, Enabled, Apply, RequestsGrow, HandlesGrow;
    StepKeepsInv(s, j, a);
    if j == i && !WorldAction(a) { AwaitsOwnStep(s, i, a, e, x); }
  }

  lemma AwaitsOwnStep(s: State, i: nat, a: Action, e: nat, x: Execution)
    requires Enabled(s, i, a) && Awaits(s, i, e, x) && !WorldAction(a)
    ensures Awaits(Apply(s, i, a), i, e, x)
  {
    assert a == Send;
  }

  lemma {:induction false} AwaitsAlong(tr: seq<State>, s: State, t: State, i: nat, e: nat, x: Execution)
    requires Trace(tr, s, t) && Inv(s) && Awaits(s, i, e, x)
    ensures Awaits(t, i, e, x)
    decreases |tr|
  {
    hide Inv, Awaits, Enabled, Apply;
    if |tr| > 1 {
      var u := tr[|tr| - 2];
      assert Trace(tr[..|tr| - 1], s, u);
      AwaitsAlong(tr[..|tr| - 1], s, u, i, e, x);
      TraceKeeps(tr[..|tr| - 1], s, u);
      assert Next(tr[|tr| - 2], tr[|tr| - 2 + 1]);
      var j, a :| Enabled(u, j, a) && t == Apply(u, j, a);
      AwaitsStays(u, j, a, i, e, x);
    }
  }

  function DecisionExpiry(x: Execution): Option<Time> {
    if x.authorizationRequired && x.check.Some? then Some(x.check.value.decision.expires) else None
  }

  function HandleExpiry(x: Execution): Option<Time> { x.bindingExpires }

  function ApprovalExpiry(x: Execution): Option<Time> { x.expires }

  /** Whatever happens from s on, attempt i dispatches before this expiry of its plan. */
  ghost predicate AlwaysBefore(s: State, i: nat, expiry: Execution -> Option<Time>) {
    forall t, k :: Reaches(s, t) && 0 <= k < |t.sent| && t.sent[k].attempt == i ==> SentBefore(t, k, expiry)
  }

  predicate SentBefore(t: State, k: nat, expiry: Execution -> Option<Time>)
    requires k < |t.sent|
  {
    && t.sent[k].execution in t.executions
    && var limit := expiry(t.executions[t.sent[k].execution]);
       limit.Some? ==> t.sent[k].at < limit.value
  }

  lemma WaitsToSend(s: State, i: nat)
    requires Inv(s) && i in s.attempts && s.attempts[i].pc.Dispatching?
    ensures s.attempts[i].pc.execution in s.executions
    ensures Awaits(s, i, s.attempts[i].pc.execution, s.executions[s.attempts[i].pc.execution])
    ensures Cleared(s, i, s.attempts[i].pc.execution, s.attempts[i].pc.last)
  {
    hide ExecutionOk, DispatchOk, LogsOk, Vouched;
    assert AttemptOk(s, i);
  }

  /** The dispatch may be put off until any time. */
  lemma SendsAt(s: State, i: nat, late: Time) returns (t: State)
    requires i in s.attempts && s.attempts[i].pc.Dispatching? && s.now <= late
    ensures Reaches(s, t) && t.executions == s.executions
    ensures t.sent == s.sent + [Dispatch(i, s.attempts[i].pc.execution, late, s.attempts[i].pc.last)]
  {
    hide Reaches;
    var u := Apply(s, i, Tick(late));
    t := Apply(u, i, Send);
    TwoSteps(s, u, t, i, Tick(late), Send);
  }

  /** An attempt about to dispatch is bound to come before an expiry if and only if its
      plan has no such expiry. */
  lemma BeforeExactly(s: State, i: nat, expiry: Execution -> Option<Time>)
    requires Inv(s) && i in s.attempts && s.attempts[i].pc.Dispatching?
    ensures s.attempts[i].pc.execution in s.executions
    ensures AlwaysBefore(s, i, expiry) <==> expiry(s.executions[s.attempts[i].pc.execution]).None?
  {
    hide Inv, Reaches, Awaits, Cleared;
    WaitsToSend(s, i);
    var e := s.attempts[i].pc.execution;
    var x := s.executions[e];
    if expiry(x).Some? {
      var late := if s.now < expiry(x).value then expiry(x).value else s.now;
      var t := SendsAt(s, i, late);
      assert t.sent[|s.sent|].attempt == i && !SentBefore(t, |s.sent|, expiry);
    } else {
      forall t, k | Reaches(s, t) && 0 <= k < |t.sent| && t.sent[k].attempt == i ensures SentBefore(t, k, expiry) {
        SendsItsOwn(s, i, e, x, t, k);
      }
    }
  }

  lemma SendsItsOwn(s: State, i: nat, e: nat, x: Execution, t: State, k: nat)
    requires Inv(s) && Awaits(s, i, e, x) && Reaches(s, t) && k < |t.sent| && t.sent[k].attempt == i
    ensures t.sent[k].execution == e && e in t.executions && t.executions[e] == x
  {
    hide Inv, Trace;
    var tr :| Trace(tr, s, t);
    AwaitsAlong(tr, s, t, i, e, x);
  }

  /** Executions rebuilt under a handle, and only they, carry the handle's expiry. */
  ghost predicate Bounded(s: State) {
    forall e :: e in s.executions ==> (s.executions[e].maker.Some? <==> s.executions[e].bindingExpires.Some?)
  }

  lemma BoundedStays(s: State, j: nat, a: Action)
    requires Inv(s) && Bounded(s) && Enabled(s, j, a)
    ensures Bounded(Apply(s, j, a))
  {
    hide Inv, Enabled, Apply, RequestsGrow, HandlesGrow, AttemptsGrow;
    StepKeepsInv(s, j, a);
    NewExecutions(s, j, a);
  }

  lemma NewExecutions(s: State, j: nat, a: Action)
    requires Enabled(s, j, a)
    ensures forall e :: e in Apply(s, j, a).executions && e !in s.executions ==>
              var x := Apply(s, j, a).executions[e]; x.maker.Some? <==> x.bindingExpires.Some?
  {
    hide Rebuild, Validate, NewRequest, CheckPasses, ExecutionPasses, Readings, BothAlive, AliveAllowed;
  }

  lemma {:induction false} BoundedAlong(tr: seq<State>, s: State, t: State)
    requires Trace(tr, s, t) && Inv(s) && Bounded(s)
    ensures Bounded(t)
    decreases |tr|
  {
    hide Inv, Bounded, Enabled, Apply;
    if |tr| > 1 {
      var u := tr[|tr| - 2];
      assert Trace(tr[..|tr| - 1], s, u);
      TraceKeeps(tr[..|tr| - 1], s, u);
      BoundedAlong(tr[..|tr| - 1], s, u);
      assert Next(tr[|tr| - 2], tr[|tr| - 2 + 1]);
      var j, a :| Enabled(u, j, a) && t == Apply(u, j, a);
      BoundedStays(u, j, a);
    }
  }

  lemma ReachableBounded(s: State)
    requires Reaches(Init, s)
    ensures Bounded(s)
  {
    hide Trace, Inv;
    InitInv();
    var tr :| Trace(tr, Init, s);
    BoundedAlong(tr, Init, s);
  }

  /** Exactly when a dispatch comes in time. For every reachable state with attempt i
      about to dispatch, every continuation dispatches before the provider's decision
      expires if and only if the plan needs no authorization; before the handle expires
      if and only if the call is on no handle; and before the approval expires if and
      only if the plan has none. */
  lemma DispatchInTimeExactly(s: State, i: nat)
    requires Reaches(Init, s) && i in s.attempts && s.attempts[i].pc.Dispatching?
    ensures s.attempts[i].pc.execution in s.executions
    ensures var x := s.executions[s.attempts[i].pc.execution];
            && (AlwaysBefore(s, i, DecisionExpiry) <==> !x.authorizationRequired)
            && (AlwaysBefore(s, i, HandleExpiry) <==> s.attempts[i].handle.None?)
            && (AlwaysBefore(s, i, ApprovalExpiry) <==> x.expires.None?)
  {
    hide Inv, Reaches, Awaits, AlwaysBefore, Vouched;
    ReachableInv(s);
    ReachableBounded(s);
    WaitsToSend(s, i);
    BeforeExactly(s, i, DecisionExpiry);
    BeforeExactly(s, i, HandleExpiry);
    BeforeExactly(s, i, ApprovalExpiry);
  }

  // ------------------------------------------------------------------------ a late one

  const LATE_BINDING := BindingInput("0123456789abcdef0123456789abcdef", "scope", "1", "main", "postgres")
  const LATE_CURRENT := Current(Some(1), Some(LATE_BINDING), Some("settings"), "main", Some("main"), "postgres")
  const LATE_PLAN := Planned("identity", Some("inspection"), true, None, true, false, false)
  const LATE_VIEW := QueryView(true, Ref(7, true), None, Some(1), "postgres", Some("settings"), Some("operation"),
      Some(LATE_PLAN),
                               "tenant", true)
  const LATE_CALL := Call(0, None, LATE_CURRENT, "select")

  lemma LateHandle() returns (s: State)
    ensures Reaches(Init, s) && s.attempts == map[] && ValidatedOver(s, 0, LATE_CALL, 100, 1, 1, 1) && s.now == 1
    ensures s.handles[0].usedBy.None? && s.handles[0].seal.expires == 100 && s.views[0] == LATE_VIEW && s.canceled == {}
    ensures s.sent == []
  {
    hide Reaches;
    var u := Apply(Init, 0, Change(0, LATE_VIEW));
    var a := Seal(0, 0, None, LATE_CURRENT, 100, [1, 1, 1], true);
    assert |LATE_BINDING.key| == 32;
    s := Apply(u, 0, a);
    TwoSteps(Init, u, s, 0, Change(0, LATE_VIEW), a);
  }

  /** It happens: a run from the start that dispatches a plan needing authorization after
      the allowing decision, and the handle, have expired. */
  lemma LateDispatchHappens() returns (s: State)
    ensures Reaches(Init, s) && |s.sent| == 1 && s.sent[0].execution in s.executions
    ensures s.executions[s.sent[0].execution].authorizationRequired
    ensures !SentBefore(s, 0, DecisionExpiry) && !SentBefore(s, 0, HandleExpiry)
  {
    hide Reaches, ValidatedOver;
    var r := LateHandle();
    ValidatedInputs(r, 0, LATE_CALL, 100, 1, 1, 1);
    var e, id := FreshKeys(r.executions, r.requests);
    ValidatedRebuilds(r, 0, LATE_CALL, e, id, 100, 1, 1, 1);
    var w := JobOf(r, 0, LATE_CALL, e, id);
    LateIsAuthorizable(w);
    var u := ReachesDispatch(r, 0, w);
    ReachesTransitive(Init, r, u);
    s := SendsAt(u, 0, 100);
    ReachesTransitive(Init, u, s);
  }

  lemma LateIsAuthorizable(w: Job)
    requires w.call == LATE_CALL && w.view == LATE_VIEW && w.plan == LATE_PLAN && w.now == 1
    requires Validate(0, LATE_VIEW, None, LATE_CURRENT, 100, 1, 1, 1, true) == Some(w.seal)
    ensures Authorizable(w) && Request(w).ceiling == 100
  {
  }
}
