/** The invariant of validated execution, kept by every step, and what it gives:
    dispatch authority and single attempts over all interleavings. */
module BindingProof {
  import opened Text
  import opened PlanBinding
  import opened BindingMachine

  // -------------------------------------------------------------------- invariant

  ghost predicate AskedBy(s: State, i: nat) { exists k :: 0 <= k < |s.asked| && s.asked[k].attempt == i }

  ghost predicate SentBy(s: State, i: nat) { exists k :: 0 <= k < |s.sent| && s.sent[k].attempt == i }

  predicate Past(t: Attempt) { t.handle.Some? && !t.pc.Consuming? && t.pc != Done(Consumed) }

  /** The provider's recorded answer behind a stored closure. */
  ghost predicate Answered(s: State, i: nat, id: nat, d: Decision) {
    id in s.requests && exists k :: 0 <= k < |s.asked| && s.asked[k] == ProviderCall(i, id, s.requests[id], Some(d))
  }

  /** A stored closure captures its maker's handle, call, request and answer. */
  ghost predicate CheckOk(s: State, e: nat)
    requires e in s.executions
  {
    var x := s.executions[e];
    x.check.Some? ==>
      var c := x.check.value;
      && x.maker.Some? && x.maker.value in s.attempts && s.attempts[x.maker.value].call == c.call
      && s.attempts[x.maker.value].handle.Some? && s.attempts[x.maker.value].handle.value in s.handles
      && s.handles[s.attempts[x.maker.value].handle.value].seal == c.seal
      && Answered(s, x.maker.value, c.id, c.decision) && c.request == s.requests[c.id]
      && c.context == x.context && c.approval == x.expires
  }

  ghost predicate ExecutionOk(s: State, e: nat)
    requires e in s.executions
  {
    CheckOk(s, e) && (s.executions[e].maker.None? && s.executions[e].authorizationRequired ==> s.executions[e].gate)
  }

  /** What a passing last check leaves behind. */
  predicate Vouched(c: Check, last: LastCheck) {
    && StillSealed(c.seal, c.call, last.view)
    && c.decision.request == Some(c.id) && c.decision.status == ALLOW
    && last.at < c.decision.expires <= c.seal.expires && c.decision.expires <= c.request.ceiling
    && (last.view.planned.value.expires.Some? ==> c.decision.expires <= last.view.planned.value.expires.value)
    && WithinDeadline(c.decision.expires, c.context) && WithinDeadline(c.decision.expires, last.view.context)
    && c.request.tenant == last.view.tenant && c.request.identity == c.seal.identity
       && c.request.family == c.call.family
    && c.request.operation == c.seal.operation && c.request.binding == c.seal.binding
  }

  /** Attempt i may run execution e: its own, or a plain one. */
  predicate MayRun(s: State, i: nat, e: nat) {
    i in s.attempts && e in s.executions
        && s.executions[e].maker == (if s.attempts[i].handle.Some? then Some(i) else None)
  }

  /** Rebuilt by attempt i under its handle, and not yet run. */
  predicate Private(s: State, i: nat, e: nat) {
    MayRun(s, i, e) && s.attempts[i].handle.Some? && !s.executions[e].gate && s.executions[e].authorizationRequired
        && s.executions[e].usedBy.None?
  }

  /** Ready to be sent: consumed by i, ungated, and vouched for where needed. */
  predicate Cleared(s: State, i: nat, e: nat, last: Option<LastCheck>) {
    && MayRun(s, i, e) && s.executions[e].usedBy == Some(i) && !s.executions[e].gate
    && (last.Some? ==> last.value.at <= s.now)
    && (s.executions[e].authorizationRequired ==>
          last.Some? && s.executions[e].check.Some? && Vouched(s.executions[e].check.value, last.value))
  }

  ghost predicate AttemptOk(s: State, i: nat)
    requires i in s.attempts
  {
    var t := s.attempts[i];
    && (Past(t) ==> t.handle.value in s.handles && s.handles[t.handle.value].usedBy == Some(i))
    && (t.pc != Done(Sent) ==> !SentBy(s, i))
    && (AskedBy(s, i) ==> Past(t))
    && match t.pc
       case Consuming => t.handle.Some? && !AskedBy(s, i)
       case Rebuilding => t.handle.Some? && !AskedBy(s, i)
       case Requesting(e, p) => !AskedBy(s, i) && Private(s, i, e)
       case Asking(e, p, id) => !AskedBy(s, i) && Private(s, i, e) && id in s.requests
       case Deciding(e, id, d) => Private(s, i, e) && Answered(s, i, id, d)
       case Checking(e) => MayRun(s, i, e)
       case Binding(e) => MayRun(s, i, e) && !s.executions[e].gate
       case Observing(e) => MayRun(s, i, e) && !s.executions[e].gate && s.executions[e].usedBy == Some(i)
       case Dispatching(e, last) => Cleared(s, i, e, last)
       case Done(o) => true
  }

  ghost predicate DispatchOk(s: State, k: nat)
    requires k < |s.sent|
  {
    var d := s.sent[k];
    && d.attempt in s.attempts && s.attempts[d.attempt].pc == Done(Sent) && d.at <= s.now
    && Cleared(s, d.attempt, d.execution, d.last) && (d.last.Some? ==> d.last.value.at <= d.at)
  }

  ghost predicate LogsOk(s: State) {
    && (forall k, l :: 0 <= k < l < |s.asked| ==> s.asked[k].attempt != s.asked[l].attempt)
    && (forall k, l :: 0 <= k < l < |s.sent| ==> s.sent[k].attempt != s.sent[l].attempt)
    && (forall k :: 0 <= k < |s.asked| ==> s.asked[k].attempt in s.attempts)
    && (forall k :: 0 <= k < |s.sent| ==> s.sent[k].attempt in s.attempts)
  }

  ghost predicate Inv(s: State) {
    && (forall i :: i in s.attempts ==> AttemptOk(s, i))
    && (forall e :: e in s.executions ==> ExecutionOk(s, e))
    && (forall k :: 0 <= k < |s.sent| ==> DispatchOk(s, k))
    && LogsOk(s)
  }

  // ----------------------------------------------------------------------- frames

  ghost predicate HandlesGrow(s: State, s': State) {
    forall h :: h in s.handles ==>
      && h in s'.handles && s'.handles[h].seal == s.handles[h].seal
      && (s.handles[h].usedBy.Some? ==> s'.handles[h].usedBy == s.handles[h].usedBy)
  }

  ghost predicate ExecutionsGrow(s: State, s': State) {
    forall e :: e in s.executions ==>
      && e in s'.executions
      && s'.executions[e].(check := s.executions[e].check, usedBy := s.executions[e].usedBy) == s.executions[e]
      && (s.executions[e].usedBy.Some? ==> s'.executions[e] == s.executions[e])
  }

  ghost predicate RequestsGrow(s: State, s': State) {
    forall r :: r in s.requests ==> r in s'.requests && s'.requests[r] == s.requests[r]
  }

  ghost predicate AttemptsGrow(s: State, s': State) {
    forall j :: j in s.attempts ==>
      && j in s'.attempts && s'.attempts[j].handle == s.attempts[j].handle && s'.attempts[j].call == s.attempts[j].call
      && (s.attempts[j].pc.Done? ==> s'.attempts[j] == s.attempts[j])
  }

  /** What no step undoes. */
  ghost predicate Grows(s: State, s': State) {
    && s.now <= s'.now && s.asked <= s'.asked && s.sent <= s'.sent && s.views.Keys <= s'.views.Keys
    && HandlesGrow(s, s') && ExecutionsGrow(s, s') && RequestsGrow(s, s') && AttemptsGrow(s, s')
  }

  /** Only executions that attempt i may run are touched. */
  ghost predicate TouchesOwn(s: State, s': State, i: nat) {
    forall e :: e in s.executions && e in s'.executions && s'.executions[e] != s.executions[e] ==> MayRun(s, i, e)
  }

  /** Only attempt i moves, and only it appears in the logs anew. */
  ghost predicate MovesOnly(s: State, s': State, i: nat) {
    && Grows(s, s') && TouchesOwn(s, s', i)
    && (forall j :: j in s.attempts && j != i ==> s'.attempts[j] == s.attempts[j])
    && (forall j :: j in s'.attempts && j != i ==> j in s.attempts)
    && (forall k :: |s.asked| <= k < |s'.asked| ==> s'.asked[k].attempt == i)
    && (forall k :: |s.sent| <= k < |s'.sent| ==> s'.sent[k].attempt == i)
  }

  lemma LogFrame(s: State, s': State, i: nat, j: nat)
    requires MovesOnly(s, s', i) && j != i
    ensures AskedBy(s', j) <==> AskedBy(s, j)
    ensures SentBy(s', j) <==> SentBy(s, j)
  {
    if AskedBy(s, j) { var k :| 0 <= k < |s.asked| && s.asked[k].attempt == j; assert s'.asked[k] == s.asked[k]; }
    if SentBy(s, j) { var k :| 0 <= k < |s.sent| && s.sent[k].attempt == j; assert s'.sent[k] == s.sent[k]; }
  }

  lemma AnswerFrame(s: State, s': State, i: nat, id: nat, d: Decision)
    requires Grows(s, s') && Answered(s, i, id, d)
    ensures Answered(s', i, id, d) && id in s.requests
  {
    var k :| 0 <= k < |s.asked| && s.asked[k] == ProviderCall(i, id, s.requests[id], Some(d));
    assert s'.asked[k] == s.asked[k];
  }

  lemma AttemptFrame(s: State, s': State, i: nat, j: nat)
    requires MovesOnly(s, s', i) && j != i && j in s.attempts && AttemptOk(s, j)
    ensures AttemptOk(s', j)
  {
    hide Vouched, AskedBy, SentBy, Answered;
    LogFrame(s, s', i, j);
    if s.attempts[j].pc.Deciding? { AnswerFrame(s, s', j, s.attempts[j].pc.id, s.attempts[j].pc.decision); }
  }

  lemma ExecutionFrame(s: State, s': State, e: nat)
    requires Grows(s, s') && e in s.executions && ExecutionOk(s, e) && s'.executions[e].check == s.executions[e].check
    ensures ExecutionOk(s', e)
  {
    hide Answered;
    var x := s.executions[e];
    if x.check.Some? { AnswerFrame(s, s', x.maker.value, x.check.value.id, x.check.value.decision); }
  }

  lemma DispatchFrame(s: State, s': State, k: nat)
    requires Grows(s, s') && k < |s.sent| && DispatchOk(s, k)
    ensures DispatchOk(s', k)
  {
    hide Vouched;
    assert s'.sent[k] == s.sent[k];
  }

  lemma LogsFrame(s: State, s': State, i: nat)
    requires MovesOnly(s, s', i) && LogsOk(s) && i in s'.attempts
    requires |s'.asked| <= |s.asked| + 1 && |s'.sent| <= |s.sent| + 1
    requires |s'.asked| == |s.asked| + 1 ==> !AskedBy(s, i)
    requires |s'.sent| == |s.sent| + 1 ==> !SentBy(s, i)
    ensures LogsOk(s')
  {
  }

  /** A step of attempt i keeps the invariant if it leaves i, the executions it
      touched and its new dispatch in order. */
  lemma StepKeeps(s: State, s': State, i: nat)
    requires Inv(s) && MovesOnly(s, s', i)
    requires i in s'.attempts ==> AttemptOk(s', i)
    requires forall e :: e in s'.executions && (e !in s.executions || s'.executions[e].check != s.executions[e].check)
              ==> ExecutionOk(s', e)
    requires forall k :: |s.sent| <= k < |s'.sent| ==> DispatchOk(s', k)
    requires LogsOk(s')
    ensures Inv(s')
  {
    hide AttemptOk, ExecutionOk, DispatchOk, LogsOk, Grows;
    forall j | j in s'.attempts ensures AttemptOk(s', j) { if j != i { AttemptFrame(s, s', i, j); } }
    forall e | e in s'.executions ensures ExecutionOk(s', e) {
      if e in s.executions && s'.executions[e].check == s.executions[e].check { ExecutionFrame(s, s', e); }
    }
    forall k | 0 <= k < |s'.sent| ensures DispatchOk(s', k) { if k < |s.sent| { DispatchFrame(s, s', k); } }
  }

  // ------------------------------------------------------------------ step by step

  lemma {:induction false} ClockAdvances(s: State, ts: seq<Time>, n: nat)
    requires 0 < n <= |ts| && s.now <= ts[0] && forall i :: 0 <= i < |ts| - 1 ==> ts[i] <= ts[i + 1]
    ensures s.now <= ts[n - 1]
  {
    if n > 1 { ClockAdvances(s, ts, n - 1); assert ts[n - 2] <= ts[n - 2 + 1]; }
  }

  /** Steps that touch only the clock, the inputs and the counter of attempt i. */
  lemma CounterStep(s: State, s': State, i: nat, pc: PC)
    requires Inv(s) && i in s.attempts && !s.attempts[i].pc.Done?
    requires s'.attempts == s.attempts[i := s.attempts[i].(pc := pc)] && s.now <= s'.now
    requires s'.(now := s.now, attempts := s.attempts) == s
    requires AttemptOk(s', i)
    ensures Inv(s')
    ensures MovesOnly(s, s', i)
  {
    hide AttemptOk, ExecutionOk, DispatchOk, AskedBy, SentBy, Answered;
    StepKeeps(s, s', i);
  }

  /** The world moved: no attempt, request or log entry changed, and nothing was lost. */
  ghost predicate Surrounds(s: State, s': State) {
    && Grows(s, s') && s'.attempts == s.attempts && s'.asked == s.asked && s'.sent == s.sent
    && forall e :: e in s.executions ==> s'.executions[e] == s.executions[e]
  }

  lemma WorldStep(s: State, s': State)
    requires Inv(s) && s.now <= s'.now && s.views.Keys <= s'.views.Keys
             && s'.(now := s.now, canceled := s.canceled, views := s.views) == s
    ensures Inv(s')
    ensures Surrounds(s, s')
  {
    hide AttemptOk, ExecutionOk, DispatchOk;
    forall j | j in s.attempts ensures AttemptOk(s', j) { SameAttempt(s, s', j); }
    forall e | e in s.executions ensures ExecutionOk(s', e) { ExecutionFrame(s, s', e); }
    forall k | 0 <= k < |s.sent| ensures DispatchOk(s', k) { DispatchFrame(s, s', k); }
  }

  lemma SameAttempt(s: State, s': State, j: nat)
    requires s.now <= s'.now && s'.(now := s.now, canceled := s.canceled, views := s.views) == s
    requires s.views.Keys <= s'.views.Keys
    requires j in s.attempts && AttemptOk(s, j)
    ensures AttemptOk(s', j)
  {
    hide Vouched;
    assert AskedBy(s', j) <==> AskedBy(s, j);
    assert SentBy(s', j) <==> SentBy(s, j);
    if s.attempts[j].pc.Deciding? { AnswerFrame(s, s', j, s.attempts[j].pc.id, s.attempts[j].pc.decision); }
  }

  lemma SameLogs(s: State, s': State, i: nat)
    requires s'.asked == s.asked && s'.sent == s.sent
    ensures AskedBy(s', i) <==> AskedBy(s, i)
    ensures SentBy(s', i) <==> SentBy(s, i)
  {
  }

  /** Refusing is always in order. */
  lemma RefuseStep(s: State, s': State, i: nat, o: Outcome)
    requires Inv(s) && i in s.attempts && !s.attempts[i].pc.Done? && o != Sent
             && (o == Consumed ==> s.attempts[i].pc.Consuming?)
    requires s'.attempts == s.attempts[i := s.attempts[i].(pc := Done(o))] && s.now <= s'.now
    requires s'.(now := s.now, attempts := s.attempts) == s
    requires o == Refused ==> !s.attempts[i].pc.Consuming?
    ensures Inv(s')
    ensures MovesOnly(s, s', i)
  {
    hide ExecutionOk, DispatchOk, AskedBy, SentBy, Answered, Cleared, MayRun, LogsOk;
    SameLogs(s, s', i);
    CounterStep(s, s', i, Done(o));
  }

  /** Moving the counter of attempt i while handles, executions and requests only grow. */
  lemma CounterMoves(s: State, s': State, i: nat, pc: PC)
    requires i in s.attempts && !s.attempts[i].pc.Done? && s.now <= s'.now
    requires s'.attempts == s.attempts[i := s.attempts[i].(pc := pc)]
    requires s.views == s'.views && s'.sent == s.sent
             && (s'.asked == s.asked
             || (|s'.asked| == |s.asked| + 1 && s.asked <= s'.asked && s'.asked[|s.asked|].attempt == i))
    requires HandlesGrow(s, s') && ExecutionsGrow(s, s') && RequestsGrow(s, s') && TouchesOwn(s, s', i)
    ensures MovesOnly(s, s', i)
  {
    hide HandlesGrow, ExecutionsGrow, RequestsGrow, TouchesOwn;
  }

  lemma ConsumeStep(s: State, i: nat)
    requires Inv(s) && Enabled(s, i, Consume)
    ensures Inv(AfterConsume(s, i))
    ensures MovesOnly(s, AfterConsume(s, i), i)
  {
    hide AttemptOk, ExecutionOk, DispatchOk, LogsOk, MovesOnly;
    var s' := AfterConsume(s, i);
    assert AttemptOk(s, i);
    if s.handles[s.attempts[i].handle.value].usedBy.Some? { RefuseStep(s, s', i, Consumed); }
    else {
      CounterMoves(s, s', i, Rebuilding);
      ConsumedAttempt(s, i);
      SameLogsOk(s, s');
      StepKeeps(s, s', i);
    }
  }

  lemma ConsumedAttempt(s: State, i: nat)
    requires Enabled(s, i, Consume) && AttemptOk(s, i) && s.handles[s.attempts[i].handle.value].usedBy.None?
    ensures AttemptOk(AfterConsume(s, i), i)
  {
    hide AskedBy, SentBy, Answered, Cleared, MayRun;
    SameLogs(s, AfterConsume(s, i), i);
  }

  lemma SameLogsOk(s: State, s': State)
    requires LogsOk(s) && s'.asked == s.asked && s'.sent == s.sent && s.attempts.Keys <= s'.attempts.Keys
    ensures LogsOk(s')
  {
  }

  lemma RebuildStep(s: State, i: nat, e: nat, ts: seq<Time>, alive: bool)
    requires Inv(s) && Enabled(s, i, Rebuilds(e, ts, alive))
    ensures Inv(After(AfterRebuild(s, i, e, ts, alive), ts))
    ensures MovesOnly(s, After(AfterRebuild(s, i, e, ts, alive), ts), i)
  {
    hide AttemptOk, ExecutionOk, DispatchOk, LogsOk, MovesOnly, Rebuild, CheckCurrent, EffectiveContext;
    var s' := After(AfterRebuild(s, i, e, ts, alive), ts);
    var t := s.attempts[i];
    assert AttemptOk(s, i);
    var p := Rebuild(s.views[t.call.query], s.handles[t.handle.value].seal, t.call, ts[0], ts[1], alive);
    if p.None? { RefuseStep(s, s', i, Refused); }
    else {
      CounterMoves(s, s', i, s'.attempts[i].pc);
      RebuiltAttempt(s, s', i, e, s'.executions[e], p.value);
      NewExecution(s', e);
      SameLogsOk(s, s');
      StepKeeps(s, s', i);
    }
  }

  lemma RebuiltAttempt(s: State, s': State, i: nat, e: nat, x: Execution, p: Planned)
    requires i in s.attempts && AttemptOk(s, i) && s.attempts[i].pc.Rebuilding?
    requires s'.asked == s.asked && s'.sent == s.sent && s'.handles == s.handles
             && s'.executions == s.executions[e := x]
    requires x.maker == Some(i) && !x.gate && x.check.None? && x.usedBy.None? && i in s'.attempts
    requires s'.attempts[i] == s.attempts[i].(pc := if x.authorizationRequired then Requesting(e, p) else Checking(e))
    ensures AttemptOk(s', i)
  {
    hide AskedBy, SentBy, Answered, Cleared;
    SameLogs(s, s', i);
  }

  lemma NewExecution(s: State, e: nat)
    requires e in s.executions && s.executions[e].check.None?
    requires s.executions[e].maker.None? && s.executions[e].authorizationRequired ==> s.executions[e].gate
    ensures ExecutionOk(s, e)
  {
  }

  lemma RequestStep(s: State, i: nat, id: nat, ts: seq<Time>, alive: bool)
    requires Inv(s) && Enabled(s, i, Request(id, ts, alive))
    ensures Inv(After(AfterRequest(s, i, id, ts, alive), ts))
    ensures MovesOnly(s, After(AfterRequest(s, i, id, ts, alive), ts), i)
  {
    hide AttemptOk, ExecutionOk, DispatchOk, LogsOk, MovesOnly, NewRequest, MaterialOf;
    var s' := After(AfterRequest(s, i, id, ts, alive), ts);
    assert AttemptOk(s, i);
    if s'.attempts[i].pc.Done? { RefuseStep(s, s', i, Refused); }
    else {
      CounterMoves(s, s', i, s'.attempts[i].pc);
      RequestedAttempt(s, s', i, id, s.attempts[i].pc.plan);
      SameLogsOk(s, s');
      StepKeeps(s, s', i);
    }
  }

  lemma RequestedAttempt(s: State, s': State, i: nat, id: nat, p: Planned)
    requires i in s.attempts && AttemptOk(s, i) && s.attempts[i].pc.Requesting? && id in s'.requests && i in s'.attempts
    requires s'.asked == s.asked && s'.sent == s.sent && s'.handles == s.handles && s'.executions == s.executions
    requires s'.attempts[i] == s.attempts[i].(pc := Asking(s.attempts[i].pc.execution, p, id))
    ensures AttemptOk(s', i)
  {
    hide AskedBy, SentBy, Answered, Cleared;
    SameLogs(s, s', i);
  }

  lemma ReplyStep(s: State, i: nat, r: Option<Decision>)
    requires Inv(s) && Enabled(s, i, Reply(r))
    ensures Inv(AfterReply(s, i, r))
    ensures MovesOnly(s, AfterReply(s, i, r), i)
  {
    hide AttemptOk, ExecutionOk, DispatchOk, LogsOk, MovesOnly, AskedBy;
    var s' := AfterReply(s, i, r);
    assert AttemptOk(s, i);
    CounterMoves(s, s', i, s'.attempts[i].pc);
    RepliedAttempt(s, i, r);
    LogsFrame(s, s', i);
    StepKeeps(s, s', i);
  }

  lemma RepliedAttempt(s: State, i: nat, r: Option<Decision>)
    requires Enabled(s, i, Reply(r)) && AttemptOk(s, i)
    ensures AttemptOk(AfterReply(s, i, r), i) && !AskedBy(s, i)
  {
    hide Cleared, SentBy;
    var s' := AfterReply(s, i, r);
    var id := s.attempts[i].pc.id;
    assert s'.asked[|s.asked|] == ProviderCall(i, id, s.requests[id], r);
    assert SentBy(s', i) <==> SentBy(s, i) by { assert s'.sent == s.sent; SameSent(s, s', i); }
  }

  lemma SameSent(s: State, s': State, i: nat)
    requires s'.sent == s.sent
    ensures SentBy(s', i) <==> SentBy(s, i)
  {
  }

  lemma FirstCheckStep(s: State, i: nat, ts: seq<Time>, alive: bool)
    requires Inv(s) && Enabled(s, i, FirstCheck(ts, alive))
    ensures Inv(After(AfterFirstCheck(s, i, ts, alive), ts))
    ensures MovesOnly(s, After(AfterFirstCheck(s, i, ts, alive), ts), i)
  {
    hide AttemptOk, ExecutionOk, DispatchOk, LogsOk, MovesOnly, Passes, CheckOf;
    var s' := After(AfterFirstCheck(s, i, ts, alive), ts);
    ClockAdvances(s, ts, 5);
    assert AttemptOk(s, i);
    if s'.attempts[i].pc.Done? { RefuseStep(s, s', i, Refused); }
    else {
      StillPrivate(s, i);
      CounterMoves(s, s', i, s'.attempts[i].pc);
      CheckedAttempt(s, s', i, CheckOf(s, i));
      CheckedExecution(s, s', i);
      SameLogsOk(s, s');
      StepKeeps(s, s', i);
    }
  }

  lemma StillPrivate(s: State, i: nat)
    requires i in s.attempts && AttemptOk(s, i) && s.attempts[i].pc.Deciding?
    ensures Private(s, i, s.attempts[i].pc.execution)
  {
  }

  lemma CheckedAttempt(s: State, s': State, i: nat, c: Check)
    requires i in s.attempts && AttemptOk(s, i) && s.attempts[i].pc.Deciding? && i in s'.attempts
    requires s'.asked == s.asked && s'.sent == s.sent && s'.handles == s.handles
    requires var e := s.attempts[i].pc.execution;
             s'.executions == s.executions[e := s.executions[e].(check := Some(c))]
                 && s'.attempts[i] == s.attempts[i].(pc := Checking(e))
    ensures AttemptOk(s', i)
  {
    hide AskedBy, SentBy, Answered, Cleared;
    SameLogs(s, s', i);
  }

  /** The stored closure is the one the provider answered. */
  lemma CheckedExecution(s: State, s': State, i: nat)
    requires Holds(s, i) && s.attempts[i].pc.Deciding? && s.attempts[i].handle.Some?
             && s.attempts[i].handle.value in s.handles
    requires AttemptOk(s, i) && s'.requests == s.requests && s'.handles == s.handles && s'.asked == s.asked
    requires var e := s.attempts[i].pc.execution;
             && s'.executions == s.executions[e := s.executions[e].(check := Some(CheckOf(s, i)))]
             && s'.attempts == s.attempts[i := s.attempts[i].(pc := Checking(e))]
    ensures ExecutionOk(s', s.attempts[i].pc.execution)
  {
    hide AskedBy, SentBy;
    var t := s.attempts[i];
    var k :| 0 <= k < |s.asked| && s.asked[k] == ProviderCall(i, t.pc.id, s.requests[t.pc.id], Some(t.pc.decision));
    assert s'.asked[k] == ProviderCall(i, t.pc.id, s'.requests[t.pc.id], Some(t.pc.decision));
  }

  lemma CheckStep(s: State, i: nat, ts: seq<Time>, alive: bool)
    requires Inv(s) && Enabled(s, i, CheckExecution(ts, alive))
    ensures Inv(Apply(s, i, CheckExecution(ts, alive)))
    ensures MovesOnly(s, Apply(s, i, CheckExecution(ts, alive)), i)
  {
    hide AttemptOk, ExecutionOk, DispatchOk, LogsOk, MovesOnly, ExecutionPasses;
    var s' := Apply(s, i, CheckExecution(ts, alive));
    ClockAdvances(s, ts, 7);
    assert AttemptOk(s, i);
    if s'.attempts[i].pc.Done? { RefuseStep(s, s', i, Refused); }
    else {
      PassedAttempt(s, s', i, ts, alive);
      CounterStep(s, s', i, s'.attempts[i].pc);
    }
  }

  lemma PassedAttempt(s: State, s': State, i: nat, ts: seq<Time>, alive: bool)
    requires Holds(s, i) && AttemptOk(s, i) && s.attempts[i].pc.Checking? && s.attempts[i].call.query in s.views
             && |ts| == 7
    requires ExecutionPasses(s.executions[s.attempts[i].pc.execution], s.attempts[i].call,
             s.views[s.attempts[i].call.query], ts, alive)
    requires s'.(now := s.now, attempts := s.attempts) == s
             && s'.attempts == s.attempts[i := s.attempts[i].(pc := PC.Binding(s.attempts[i].pc.execution))]
    ensures AttemptOk(s', i)
  {
    hide AskedBy, SentBy, Answered, Cleared, Passes;
    SameLogs(s, s', i);
  }

  lemma BindStep(s: State, i: nat)
    requires Inv(s) && Enabled(s, i, BindExecution)
    ensures Inv(AfterBind(s, i))
    ensures MovesOnly(s, AfterBind(s, i), i)
  {
    hide AttemptOk, ExecutionOk, DispatchOk, LogsOk, MovesOnly;
    var s' := AfterBind(s, i);
    var e := s.attempts[i].pc.execution;
    assert AttemptOk(s, i);
    if s.executions[e].usedBy.Some? { RefuseStep(s, s', i, Refused); }
    else {
      BoundAttempt(s, i);
      CounterMoves(s, s', i, Observing(e));
      SameLogsOk(s, s');
      StepKeeps(s, s', i);
    }
  }

  lemma BoundAttempt(s: State, i: nat)
    requires Enabled(s, i, BindExecution) && AttemptOk(s, i) && s.executions[s.attempts[i].pc.execution].usedBy.None?
    ensures AttemptOk(AfterBind(s, i), i) && MayRun(s, i, s.attempts[i].pc.execution)
  {
    hide AskedBy, SentBy, Answered, Cleared;
    SameLogs(s, AfterBind(s, i), i);
  }

  lemma ObserveStep(s: State, i: nat, ts: seq<Time>, alive: bool)
    requires Inv(s) && Enabled(s, i, Observe(ts, alive))
    ensures Inv(After(AfterObserve(s, i, ts, alive), ts))
    ensures MovesOnly(s, After(AfterObserve(s, i, ts, alive), ts), i)
  {
    hide AttemptOk, ExecutionOk, DispatchOk, LogsOk, MovesOnly, Passes;
    var s' := After(AfterObserve(s, i, ts, alive), ts);
    ClockAdvances(s, ts, 5);
    assert AttemptOk(s, i);
    if s'.attempts[i].pc.Done? { RefuseStep(s, s', i, Refused); }
    else {
      ObservedAttempt(s, s', i, ts, alive);
      CounterStep(s, s', i, s'.attempts[i].pc);
    }
  }

  lemma ObservedAttempt(s: State, s': State, i: nat, ts: seq<Time>, alive: bool)
    requires Holds(s, i) && s.attempts[i].pc.Observing? && s.attempts[i].call.query in s.views && |ts| == 5
             && AttemptOk(s, i)
    requires i in s'.attempts && s' == After(SetPC(s, i, s'.attempts[i].pc), ts) && s.now <= s'.now == ts[4]
    requires var e, v := s.attempts[i].pc.execution, s.views[s.attempts[i].call.query];
             var x := s.executions[e];
             if x.authorizationRequired then
               x.check.Some? && Passes(x.check.value, v, ts, alive)
                   && s'.attempts[i].pc == Dispatching(e, Some(LastCheck(ts[4], v)))
             else s'.attempts[i].pc == Dispatching(e, None)
    ensures AttemptOk(s', i)
  {
    hide AskedBy, SentBy, Answered, Vouched, Passes;
    SameLogs(s, s', i);
    var x := s.executions[s.attempts[i].pc.execution];
    if x.authorizationRequired { VouchedBy(x.check.value, s.views[s.attempts[i].call.query], ts, alive); }
  }

  lemma VouchedBy(c: Check, v: QueryView, ts: seq<Time>, alive: bool)
    requires |ts| >= 5 && Passes(c, v, ts, alive)
    ensures Vouched(c, LastCheck(ts[4], v))
  {
    hide CheckPasses, StillSealed;
    PassingCheckMeans(c, v, ts[0], ts[1], ts[2], ts[3], ts[4], alive);
  }

  lemma SendStep(s: State, i: nat)
    requires Inv(s) && Enabled(s, i, Send)
    ensures Inv(Apply(s, i, Send))
    ensures MovesOnly(s, Apply(s, i, Send), i)
  {
    hide AttemptOk, ExecutionOk, DispatchOk, LogsOk, MovesOnly, SentBy;
    var s' := Apply(s, i, Send);
    assert AttemptOk(s, i);
    SentMoves(s, s', i);
    SentAttempt(s, s', i);
    LogsFrame(s, s', i);
    StepKeeps(s, s', i);
  }

  lemma SentMoves(s: State, s': State, i: nat)
    requires Enabled(s, i, Send) && s' == Apply(s, i, Send)
    ensures MovesOnly(s, s', i)
  {
  }

  lemma SentAttempt(s: State, s': State, i: nat)
    requires Enabled(s, i, Send) && s' == Apply(s, i, Send) && AttemptOk(s, i)
    ensures AttemptOk(s', i) && DispatchOk(s', |s.sent|) && !SentBy(s, i)
  {
    hide AskedBy, Answered, Vouched;
    SameAsked(s, s', i);
  }

  lemma SameAsked(s: State, s': State, i: nat)
    requires s'.asked == s.asked
    ensures AskedBy(s', i) <==> AskedBy(s, i)
  {
  }

  lemma ArriveStep(s: State, i: nat, h: Option<nat>, e: nat, call: Call)
    requires Inv(s) && Enabled(s, i, Arrive(h, e, call))
    ensures Inv(Apply(s, i, Arrive(h, e, call)))
    ensures MovesOnly(s, Apply(s, i, Arrive(h, e, call)), i)
  {
    hide AttemptOk, ExecutionOk, DispatchOk, LogsOk, MovesOnly;
    var s' := Apply(s, i, Arrive(h, e, call));
    ArrivalMoves(s, s', i, h, e, call);
    ArrivedAttempt(s, s', i, h, e, call);
    SameLogsOk(s, s');
    StepKeeps(s, s', i);
  }

  lemma ArrivalMoves(s: State, s': State, i: nat, h: Option<nat>, e: nat, call: Call)
    requires Enabled(s, i, Arrive(h, e, call)) && s' == Apply(s, i, Arrive(h, e, call))
    ensures MovesOnly(s, s', i)
  {
  }

  lemma ArrivedAttempt(s: State, s': State, i: nat, h: Option<nat>, e: nat, call: Call)
    requires Enabled(s, i, Arrive(h, e, call)) && s' == Apply(s, i, Arrive(h, e, call)) && LogsOk(s)
    ensures AttemptOk(s', i)
  {
    assert !AskedBy(s', i) && !SentBy(s', i);
  }

  /** New handles and plain plans. */
  lemma CreateStep(s: State, s': State)
    requires Inv(s) && s.now <= s'.now && s'.views == s.views && s'.attempts == s.attempts
             && s'.requests == s.requests && s'.asked == s.asked && s'.sent == s.sent
    requires forall h :: h in s.handles ==> h in s'.handles && s'.handles[h] == s.handles[h]
    requires forall e :: e in s.executions ==> e in s'.executions && s'.executions[e] == s.executions[e]
    requires forall e :: e in s'.executions && e !in s.executions ==> ExecutionOk(s', e)
    ensures Inv(s')
    ensures Surrounds(s, s')
  {
    hide AttemptOk, ExecutionOk, DispatchOk;
    assert Grows(s, s');
    forall j | j in s.attempts ensures AttemptOk(s', j) { CreateAttempt(s, s', j); }
    forall e | e in s'.executions ensures ExecutionOk(s', e) { if e in s.executions { ExecutionFrame(s, s', e); } }
    forall k | 0 <= k < |s.sent| ensures DispatchOk(s', k) { DispatchFrame(s, s', k); }
  }

  lemma CreateAttempt(s: State, s': State, j: nat)
    requires Grows(s, s') && s'.attempts == s.attempts && s'.asked == s.asked && s'.sent == s.sent && j in s.attempts
             && AttemptOk(s, j)
    requires forall e :: e in s.executions ==> e in s'.executions && s'.executions[e] == s.executions[e]
    ensures AttemptOk(s', j)
  {
    hide Vouched, AskedBy, SentBy, Answered;
    SameLogs(s, s', j);
    if s.attempts[j].pc.Deciding? { AnswerFrame(s, s', j, s.attempts[j].pc.id, s.attempts[j].pc.decision); }
  }

  lemma SealStep(s: State, i: nat, a: Action)
    requires Inv(s) && (a.Seal? || a.Plan?) && Enabled(s, i, a)
    ensures Inv(Apply(s, i, a))
    ensures Surrounds(s, Apply(s, i, a))
  {
    hide AttemptOk, ExecutionOk, DispatchOk, LogsOk, Inv, Validate, Surrounds;
    var s' := Apply(s, i, a);
    if a.Seal? { ClockAdvances(s, a.ts, 3); }
    if a.Plan? { NewExecution(s', a.execution); }
    CreateStep(s, s');
  }

  predicate WorldAction(a: Action) { a.Tick? || a.Cancel? || a.Change? || a.Seal? || a.Plan? }

  /** The invariant is kept by every step, and a step moves one attempt or none. */
  lemma StepKeepsInv(s: State, i: nat, a: Action)
    requires Inv(s) && Enabled(s, i, a)
    ensures Inv(Apply(s, i, a))
    ensures if WorldAction(a) then Surrounds(s, Apply(s, i, a)) else MovesOnly(s, Apply(s, i, a), i)
  {
    hide Inv, AfterConsume, AfterRebuild, AfterRequest, AfterReply, AfterFirstCheck, AfterBind, AfterObserve,
         Validate, ExecutionPasses, PlainExecution, MovesOnly, Surrounds;
    match a
    case Tick(now) => WorldStep(s, Apply(s, i, a));
    case Cancel(c) => WorldStep(s, Apply(s, i, a));
    case Change(q, v) => WorldStep(s, Apply(s, i, a));
    case Seal(h, q, context, current, expiry, ts, alive) => SealStep(s, i, a);
    case Plan(e, q) => SealStep(s, i, a);
    case Arrive(h, e, call) => ArriveStep(s, i, h, e, call);
    case Consume => ConsumeStep(s, i);
    case Rebuilds(e, ts, alive) => RebuildStep(s, i, e, ts, alive);
    case Request(id, ts, alive) => RequestStep(s, i, id, ts, alive);
    case Reply(r) => ReplyStep(s, i, r);
    case FirstCheck(ts, alive) => FirstCheckStep(s, i, ts, alive);
    case CheckExecution(ts, alive) => CheckStep(s, i, ts, alive);
    case BindExecution => BindStep(s, i);
    case Observe(ts, alive) => ObserveStep(s, i, ts, alive);
    case Send => SendStep(s, i);
  }
}
