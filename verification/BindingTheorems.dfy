/** What validated execution promises over every interleaving. */
module BindingTheorems {
  import opened Text
  import opened PlanBinding
  import opened BindingMachine
  import opened BindingProof

  lemma OneStepReaches(s: State, i: nat, a: Action)
    requires Enabled(s, i, a)
    ensures Reaches(s, Apply(s, i, a))
  {
    hide Apply, Enabled;
    assert Next(s, Apply(s, i, a));
    assert Trace([s, Apply(s, i, a)], s, Apply(s, i, a));
  }

  lemma StayReaches(s: State)
    ensures Reaches(s, s)
  {
    assert Trace([s], s, s);
  }

  lemma ReachesTransitive(s: State, t: State, u: State)
    requires Reaches(s, t) && Reaches(t, u)
    ensures Reaches(s, u)
  {
    hide Next;
    var a :| Trace(a, s, t);
    var b :| Trace(b, t, u);
    var ab := a + b[1..];
    forall k | 0 <= k < |ab| - 1 ensures Next(ab[k], ab[k + 1]) {
      if k >= |a| - 1 { assert Next(b[k - (|a| - 1)], b[k - (|a| - 1) + 1]); }
    }
    assert Trace(ab, s, u);
  }

  lemma InitInv()
    ensures Inv(Init)
  {
  }

  /** Consumption, answers and dispatches are permanent. */
  ghost predicate Keeps(s: State, s': State) {
    && s.now <= s'.now && s.asked <= s'.asked && s.sent <= s'.sent
    && HandlesGrow(s, s')
  }

  lemma NextKeeps(t: State, s': State)
    requires Inv(t) && Next(t, s')
    ensures Inv(s') && Keeps(t, s')
  {
    hide Inv, Apply, Enabled, HandlesGrow;
    var i, a :| Enabled(t, i, a) && s' == Apply(t, i, a);
    StepKeepsInv(t, i, a);
  }

  lemma {:induction false} TraceKeeps(tr: seq<State>, s: State, s': State)
    requires Trace(tr, s, s') && Inv(s)
    ensures Inv(s') && Keeps(s, s')
    decreases |tr|
  {
    hide Inv, Next;
    if |tr| > 1 {
      var t := tr[|tr| - 2];
      assert Trace(tr[..|tr| - 1], s, t);
      TraceKeeps(tr[..|tr| - 1], s, t);
      assert Next(tr[|tr| - 2], tr[|tr| - 2 + 1]);
      NextKeeps(t, s');
    }
  }

  lemma ReachableInv(s: State)
    requires Reaches(Init, s)
    ensures Inv(s)
  {
    hide Inv, Trace;
    InitInv();
    var tr :| Trace(tr, Init, s);
    TraceKeeps(tr, Init, s);
  }

  lemma RunsKeep(s: State, s': State)
    requires Reaches(Init, s) && Reaches(s, s')
    ensures Inv(s') && Keeps(s, s')
  {
    hide Inv, Trace;
    ReachableInv(s);
    var tr :| Trace(tr, s, s');
    TraceKeeps(tr, s, s');
  }

  // ------------------------------------------------------------ dispatch authority

  /** Dispatch authority: a plan that needs authorization is dispatched only with the
      provider's recorded permission for that very request; at the last check before
      the executor call the decision had not expired, it outlasts neither the handle,
      the approval nor a context deadline, and the inputs found then were the sealed
      ones. The checked instant is not after the dispatch. */
  lemma DispatchAuthority(s: State, k: nat)
    requires Reaches(Init, s) && k < |s.sent|
    requires s.sent[k].execution in s.executions && s.executions[s.sent[k].execution].authorizationRequired
    ensures var d := s.sent[k];
            var x := s.executions[d.execution];
            && x.check.Some? && d.last.Some? && d.attempt in s.attempts && s.attempts[d.attempt].handle.Some?
            && var c := x.check.value;
               && s.attempts[d.attempt].handle.value in s.handles
                  && s.handles[s.attempts[d.attempt].handle.value].seal == c.seal
               && c.call == s.attempts[d.attempt].call && Vouched(c, d.last.value) && d.last.value.at <= d.at
    ensures exists a :: 0 <= a < |s.asked| && s.asked[a].attempt == s.sent[k].attempt
                        && s.asked[a].request == s.executions[s.sent[k].execution].check.value.request
                        && s.asked[a].reply == Some(s.executions[s.sent[k].execution].check.value.decision)
                        && s.asked[a].reply.value.request == Some(s.asked[a].id)
                           && s.asked[a].reply.value.status == ALLOW
  {
    hide Vouched, AttemptOk, LogsOk, Reaches;
    ReachableInv(s);
    assert DispatchOk(s, k);
    var d := s.sent[k];
    assert ExecutionOk(s, d.execution);
    var c := s.executions[d.execution].check.value;
    var a :| 0 <= a < |s.asked| && s.asked[a] == ProviderCall(d.attempt, c.id, s.requests[c.id], Some(c.decision));
    VouchedAllows(c, d.last.value);
  }

  lemma VouchedAllows(c: Check, last: LastCheck)
    requires Vouched(c, last)
    ensures c.decision.request == Some(c.id) && c.decision.status == ALLOW
  {
  }

  /** Every dispatched plan is ungated and was consumed by the dispatching attempt. */
  lemma DispatchesAreConsumed(s: State, k: nat)
    requires Reaches(Init, s) && k < |s.sent|
    ensures s.sent[k].execution in s.executions && s.executions[s.sent[k].execution].usedBy == Some(s.sent[k].attempt)
    ensures !s.executions[s.sent[k].execution].gate
  {
    hide Vouched, AttemptOk, LogsOk, Reaches, ExecutionOk;
    ReachableInv(s);
    assert DispatchOk(s, k);
  }

  // --------------------------------------------------------------- single attempts

  predicate On(s: State, i: nat, h: nat) { i in s.attempts && s.attempts[i].handle == Some(h) }

  /** Single attempt: on a handle and its copies at most one call gets past consumption,
      at most one provider call and one dispatch are ever made, whichever way the calls
      interleave. */
  lemma SingleAttempt(s: State, h: nat)
    requires Reaches(Init, s)
    ensures forall i, j :: On(s, i, h) && On(s, j, h) && Past(s.attempts[i]) && Past(s.attempts[j]) ==> i == j
    ensures forall k, l :: 0 <= k < |s.asked| && 0 <= l < |s.asked| ==>
              On(s, s.asked[k].attempt, h) && On(s, s.asked[l].attempt, h) ==> k == l
    ensures forall k, l :: 0 <= k < |s.sent| && 0 <= l < |s.sent| ==>
              On(s, s.sent[k].attempt, h) && On(s, s.sent[l].attempt, h) ==> k == l
  {
    hide Reaches, ExecutionOk, Vouched;
    ReachableInv(s);
    forall i | On(s, i, h) && Past(s.attempts[i]) ensures h in s.handles && s.handles[h].usedBy == Some(i) {
      assert AttemptOk(s, i);
    }
    forall k | 0 <= k < |s.asked| && On(s, s.asked[k].attempt, h) ensures Past(s.attempts[s.asked[k].attempt]) {
      AskedIsPast(s, k);
    }
    forall k | 0 <= k < |s.sent| && On(s, s.sent[k].attempt, h) ensures Past(s.attempts[s.sent[k].attempt]) {
      assert DispatchOk(s, k);
    }
  }

  lemma AskedIsPast(s: State, k: nat)
    requires Inv(s) && k < |s.asked|
    ensures s.asked[k].attempt in s.attempts && Past(s.attempts[s.asked[k].attempt])
  {
    hide ExecutionOk, DispatchOk;
    var i := s.asked[k].attempt;
    assert AttemptOk(s, i);
    assert AskedBy(s, i);
  }

  /** A failed attempt consumes the handle for good, and no other call ever passes. */
  lemma FailureConsumes(s: State, s': State, i: nat, j: nat, h: nat)
    requires Reaches(Init, s) && Reaches(s, s') && On(s, i, h) && s.attempts[i].pc == Done(Refused)
    requires On(s', j, h) && j != i
    ensures h in s'.handles && s'.handles[h].usedBy == Some(i) && !Past(s'.attempts[j])
  {
    hide Reaches, ExecutionOk, DispatchOk, LogsOk;
    RunsKeep(s, s');
    ReachableInv(s);
    assert AttemptOk(s, i);
    assert AttemptOk(s', j);
  }

  /** One execution, however many callers share the plan, is dispatched at most once. */
  lemma PlansRunOnce(s: State, k: nat, l: nat)
    requires Reaches(Init, s) && k < |s.sent| && l < |s.sent| && s.sent[k].execution == s.sent[l].execution
    ensures k == l
  {
    hide Vouched, AttemptOk, ExecutionOk, Reaches;
    ReachableInv(s);
    assert DispatchOk(s, k) && DispatchOk(s, l);
  }

  // --------------------------------------------------- the executor call comes later

  /** The last check does not bound the executor call itself: from any reachable state
      waiting to dispatch, time may pass the decision's expiry before the call. */
  lemma DispatchMayComeLate(s: State, i: nat)
    requires Reaches(Init, s) && i in s.attempts && s.attempts[i].pc.Dispatching?
    requires s.attempts[i].pc.execution in s.executions && s.executions[s.attempts[i].pc.execution].check.Some?
    ensures exists s' :: Reaches(s, s') && |s'.sent| == |s.sent| + 1 && s'.sent[|s.sent|].attempt == i
                         && s'.sent[|s.sent|].at
                            >= s.executions[s.attempts[i].pc.execution].check.value.decision.expires
  {
    hide Reaches;
    var expires := s.executions[s.attempts[i].pc.execution].check.value.decision.expires;
    var late := if s.now < expires then expires else s.now;
    var t := Apply(s, i, Tick(late));
    var u := Apply(t, i, Send);
    TwoSteps(s, t, u, i, Tick(late), Send);
  }

  lemma TwoSteps(s: State, t: State, u: State, i: nat, a: Action, b: Action)
    requires Enabled(s, i, a) && t == Apply(s, i, a) && Enabled(t, i, b) && u == Apply(t, i, b)
    ensures Reaches(s, u)
  {
    hide Apply, Enabled, Reaches;
    OneStepReaches(s, i, a);
    OneStepReaches(t, i, b);
    ReachesTransitive(s, t, u);
  }
}
