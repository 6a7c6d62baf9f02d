/** The ExecuteValidated entries as they run: consume, rebuild, ask once, check, bind,
    check again, call the executor. Other attempts, the clock and every input may move
    between any two of these. */
module BindingRuntime {
  import opened Text
  import opened PlanBinding
  import opened BindingMachine
  import opened BindingProof
  import opened BindingTheorems

  /** What attempt i can count on while others act. */
  ghost predicate Waited(s: State, s': State, i: nat) {
    && Inv(s') && Reaches(s, s') && s.views.Keys <= s'.views.Keys
    && HandlesGrow(s, s') && RequestsGrow(s, s')
    && (i in s.attempts <==> i in s'.attempts) && (i in s.attempts ==> s'.attempts[i] == s.attempts[i])
    && (forall e :: e in s.executions && s.executions[e].maker == Some(i)
         ==> e in s'.executions && s'.executions[e] == s.executions[e])
  }

  lemma WaitedTransitive(s: State, t: State, u: State, i: nat)
    requires Waited(s, t, i) && Waited(t, u, i)
    ensures Waited(s, u, i)
  {
    hide Inv, Reaches;
    ReachesTransitive(s, t, u);
  }

  /** A step of the world or of another attempt. */
  lemma OthersLeaveAlone(s: State, j: nat, a: Action, i: nat)
    requires Inv(s) && Enabled(s, j, a) && (j != i || WorldAction(a))
    ensures Waited(s, Apply(s, j, a), i)
  {
    hide Inv, Reaches, Enabled, Apply;
    StepKeepsInv(s, j, a);
    OneStepReaches(s, j, a);
  }

  class Runtime {
    var state: State

    constructor ()
      ensures state == Init
    {
      state := Init;
    }

    method Perform(i: nat, a: Action) returns (done: bool)
      requires Inv(state)
      modifies this
      ensures done <==> Enabled(old(state), i, a)
      ensures state == if done then Apply(old(state), i, a) else old(state)
      ensures Inv(state) && Reaches(old(state), state)
    {
      hide Inv, Enabled, Apply, Reaches;
      StayReaches(state);
      if !Enabled(state, i, a) { return false; }
      StepKeepsInv(state, i, a);
      OneStepReaches(state, i, a);
      state := Apply(state, i, a);
      return true;
    }

    /** Any finite number of steps of the world and of the other attempts. */
    method Wait(i: nat)
      requires Inv(state)
      modifies this
      ensures Waited(old(state), state, i)
    {
      hide Inv, Reaches, Enabled, Apply;
      ghost var start := state;
      StayReaches(start);
      var n: nat := *;
      while n > 0
        invariant Waited(start, state, i)
      {
        var j: nat, a: Action := *, *;
        if j != i || WorldAction(a) {
          ghost var before := state;
          var done := Perform(j, a);
          if done { OthersLeaveAlone(before, j, a, i); WaitedTransitive(start, before, state, i); }
        }
        n := n - 1;
      }
    }

    /** n nondecreasing clock readings from now on. */
    method ReadClock(n: nat) returns (ts: seq<Time>)
      ensures Readings(state, ts, n)
    {
      ts := [];
      var last := state.now;
      while |ts| < n
        invariant |ts| <= n && state.now <= last
        invariant ts != [] ==> state.now <= ts[0] && last == ts[|ts| - 1]
        invariant forall k :: 0 <= k < |ts| - 1 ==> ts[k] <= ts[k + 1]
      {
        var elapsed: int := *;
        if elapsed > 0 { last := last + elapsed; }
        ts := ts + [last];
      }
    }
  }

  /** An allocation: any key not in use. */
  method FreshKey(keys: set<nat>) returns (k: nat)
    ensures k !in keys
  {
    var rest := keys;
    k := 0;
    while rest != {}
      invariant forall x :: x in keys && x !in rest ==> x < k
      decreases |rest|
    {
      var x :| x in rest;
      if x >= k { k := x + 1; }
      rest := rest - {x};
    }
  }

  predicate At(s: State, i: nat, h: nat, call: Call, pc: PC) {
    i in s.attempts && s.attempts[i] == Attempt(Some(h), call, pc)
  }

  /** Attempt i stands at pc on handle h, which it has consumed, holding execution e. */
  predicate Working(s: State, i: nat, h: nat, call: Call, pc: PC) {
    && At(s, i, h, call, pc) && h in s.handles && s.handles[h].usedBy == Some(i) && call.query in s.views
  }

  /** The execution an attempt rebuilt for itself. */
  predicate Mine(s: State, i: nat, e: nat) { e in s.executions && s.executions[e].maker == Some(i) }

  class Query {
    const runtime: Runtime
    const id: nat

    constructor (runtime: Runtime, id: nat)
      ensures this.runtime == runtime && this.id == id
    {
      this.runtime, this.id := runtime, id;
    }

    /** The compare-and-swap on the handle. */
    method Consume(i: nat, h: nat, call: Call) returns (won: bool)
      requires Inv(runtime.state) && At(runtime.state, i, h, call, Consuming) && h in runtime.state.handles
               && call.query in runtime.state.views
      modifies runtime
      ensures Inv(runtime.state) && Reaches(old(runtime.state), runtime.state)
      ensures won ==> Working(runtime.state, i, h, call, Rebuilding)
      ensures !won ==>
                At(runtime.state, i, h, call, Done(Consumed)) && h in runtime.state.handles
                && runtime.state.handles[h].usedBy.Some?
    {
      hide Inv, Reaches;
      ghost var start := runtime.state;
      runtime.Wait(i);
      ghost var at := runtime.state;
      var done := runtime.Perform(i, Action.Consume);
      ReachesTransitive(start, at, runtime.state);
      return runtime.state.attempts[i].pc.Rebuilding?;
    }

    /** Whether a context may still be found alive. */
    method Alive(c: Option<Context>, d: Option<Context>) returns (alive: bool)
      ensures AliveAllowed(runtime.state, c, alive) && AliveAllowed(runtime.state, d, alive)
    {
      alive := *;
      if c.Some? && c.value.ref.id in runtime.state.canceled { alive := false; }
      if d.Some? && d.value.ref.id in runtime.state.canceled { alive := false; }
    }

    /** rebuildBinding: None when the attempt is refused. */
    method RebuildBinding(i: nat, h: nat, call: Call) returns (e: Option<nat>)
      requires Inv(runtime.state) && Working(runtime.state, i, h, call, Rebuilding)
      modifies runtime
      ensures Inv(runtime.state) && Reaches(old(runtime.state), runtime.state)
      ensures e.None? ==> At(runtime.state, i, h, call, Done(Refused))
      ensures e.Some? ==>
                && h in runtime.state.handles && call.query in runtime.state.views
                && StillSealed(runtime.state.handles[h].seal, call, runtime.state.views[call.query])
      ensures e.Some? ==>
                Mine(runtime.state, i, e.value) && h in runtime.state.handles
                && runtime.state.handles[h].usedBy == Some(i) && call.query in runtime.state.views
      ensures e.Some? ==> if runtime.state.executions[e.value].authorizationRequired
                          then exists p :: At(runtime.state, i, h, call, Requesting(e.value, p))
                          else At(runtime.state, i, h, call, Checking(e.value))
    {
      hide Inv, Reaches, Rebuild, EffectiveContext, StillSealed;
      ghost var start := runtime.state;
      runtime.Wait(i);
      ghost var at := runtime.state;
      var unused := FreshKey(runtime.state.executions.Keys);
      var ts := runtime.ReadClock(2);
      var alive := Alive(call.context, None);
      var done := runtime.Perform(i, Rebuilds(unused, ts, alive));
      RebuildNeedsSeal(at.views[call.query], at.handles[h].seal, call, ts[0], ts[1], alive);
      ReachesTransitive(start, at, runtime.state);
      return if runtime.state.attempts[i].pc.Done? then None else Some(unused);
    }

    method BothAliveNow(i: nat) returns (alive: bool)
      requires Holds(runtime.state, i) && runtime.state.attempts[i].call.query in runtime.state.views
      ensures BothAlive(runtime.state, i, alive)
    {
      var e := runtime.state.attempts[i].pc.execution;
      alive := Alive(runtime.state.executions[e].context,
          runtime.state.views[runtime.state.attempts[i].call.query].context);
    }

    /** authorizeBinding: build the request, ask the provider once, check its answer. */
    method AuthorizeBinding(i: nat, h: nat, call: Call, e: nat, ghost p: Planned) returns (authorized: bool)
      requires Inv(runtime.state) && Working(runtime.state, i, h, call, Requesting(e, p)) && Mine(runtime.state, i, e)
               && call.current.binding.Some?
      modifies runtime
      ensures Inv(runtime.state) && Reaches(old(runtime.state), runtime.state)
      ensures authorized ==> Working(runtime.state, i, h, call, Checking(e)) && Mine(runtime.state, i, e)
      ensures !authorized ==> At(runtime.state, i, h, call, Done(Refused))
    {
      var asking := AskFor(i, h, call, e, p);
      if !asking { return false; }
      ghost var asked := runtime.state;
      var answered := Ask(i, h, call, e);
      if !answered { ReachesTransitive(old(runtime.state), asked, runtime.state); return false; }
      ghost var told := runtime.state;
      authorized := Decide(i, h, call, e);
      ReachesTransitive(old(runtime.state), asked, told);
      ReachesTransitive(old(runtime.state), told, runtime.state);
    }

    method AskFor(i: nat, h: nat, call: Call, e: nat, ghost p: Planned) returns (asking: bool)
      requires Inv(runtime.state) && Working(runtime.state, i, h, call, Requesting(e, p)) && Mine(runtime.state, i, e)
               && call.current.binding.Some?
      modifies runtime
      ensures Inv(runtime.state) && Reaches(old(runtime.state), runtime.state)
      ensures asking ==> Mine(runtime.state, i, e) && AskingNow(runtime.state, i, h, call, e)
      ensures !asking ==> At(runtime.state, i, h, call, Done(Refused))
    {
      hide Inv, Reaches, NewRequest, MaterialOf;
      ghost var start := runtime.state;
      runtime.Wait(i);
      ghost var at := runtime.state;
      var id := FreshKey(runtime.state.requests.Keys);
      var ts := runtime.ReadClock(1);
      var alive := BothAliveNow(i);
      var done := runtime.Perform(i, Request(id, ts, alive));
      ReachesTransitive(start, at, runtime.state);
      return runtime.state.attempts[i].pc.Asking?;
    }

    /** The one provider call; an error is discarded unread. */
    method Ask(i: nat, h: nat, call: Call, e: nat) returns (answered: bool)
      requires Inv(runtime.state) && AskingNow(runtime.state, i, h, call, e) && Mine(runtime.state, i, e)
      modifies runtime
      ensures Inv(runtime.state) && Reaches(old(runtime.state), runtime.state)
      ensures answered ==> Mine(runtime.state, i, e) && DecidingNow(runtime.state, i, h, call, e)
      ensures !answered ==> At(runtime.state, i, h, call, Done(Refused))
    {
      hide Inv, Reaches;
      ghost var start := runtime.state;
      runtime.Wait(i);
      ghost var at := runtime.state;
      var reply: Option<Decision> := *;
      var done := runtime.Perform(i, Reply(reply));
      ReachesTransitive(start, at, runtime.state);
      if reply.None? { return false; }
      return true;
    }

    method Decide(i: nat, h: nat, call: Call, e: nat) returns (authorized: bool)
      requires Inv(runtime.state) && DecidingNow(runtime.state, i, h, call, e) && Mine(runtime.state, i, e)
      modifies runtime
      ensures Inv(runtime.state) && Reaches(old(runtime.state), runtime.state)
      ensures authorized ==> Working(runtime.state, i, h, call, Checking(e)) && Mine(runtime.state, i, e)
      ensures !authorized ==> At(runtime.state, i, h, call, Done(Refused))
    {
      hide Inv, Reaches, Passes, CheckOf;
      ghost var start := runtime.state;
      runtime.Wait(i);
      ghost var at := runtime.state;
      var ts := runtime.ReadClock(5);
      var alive := BothAliveNow(i);
      var done := runtime.Perform(i, FirstCheck(ts, alive));
      ReachesTransitive(start, at, runtime.state);
      return runtime.state.attempts[i].pc.Checking?;
    }

    /** checkExecution. */
    method CheckPlan(i: nat, h: nat, call: Call, e: nat) returns (passed: bool)
      requires Inv(runtime.state) && Working(runtime.state, i, h, call, Checking(e)) && Mine(runtime.state, i, e)
      modifies runtime
      ensures Inv(runtime.state) && Reaches(old(runtime.state), runtime.state)
      ensures passed ==> Working(runtime.state, i, h, call, PC.Binding(e)) && Mine(runtime.state, i, e)
      ensures !passed ==> At(runtime.state, i, h, call, Done(Refused))
    {
      hide Inv, Reaches, ExecutionPasses;
      ghost var start := runtime.state;
      runtime.Wait(i);
      ghost var at := runtime.state;
      var ts := runtime.ReadClock(7);
      var alive := BothAliveNow(i);
      var done := runtime.Perform(i, CheckExecution(ts, alive));
      ReachesTransitive(start, at, runtime.state);
      return runtime.state.attempts[i].pc.Binding?;
    }

    /** The compare-and-swap on the plan. */
    method TakePlan(i: nat, h: nat, call: Call, e: nat) returns (bound: bool)
      requires Inv(runtime.state) && Working(runtime.state, i, h, call, PC.Binding(e)) && Mine(runtime.state, i, e)
      modifies runtime
      ensures Inv(runtime.state) && Reaches(old(runtime.state), runtime.state)
      ensures bound ==> Working(runtime.state, i, h, call, Observing(e)) && Mine(runtime.state, i, e)
      ensures !bound ==> At(runtime.state, i, h, call, Done(Refused))
    {
      hide Inv, Reaches;
      ghost var start := runtime.state;
      runtime.Wait(i);
      ghost var at := runtime.state;
      var done := runtime.Perform(i, Action.BindExecution);
      ReachesTransitive(start, at, runtime.state);
      return runtime.state.attempts[i].pc.Observing?;
    }

    /** observe: the last check before the executor call. */
    method ObservePlan(i: nat, h: nat, call: Call, e: nat) returns (cleared: bool)
      requires Inv(runtime.state) && Working(runtime.state, i, h, call, Observing(e)) && Mine(runtime.state, i, e)
      modifies runtime
      ensures Inv(runtime.state) && Reaches(old(runtime.state), runtime.state)
      ensures cleared ==> DispatchingNow(runtime.state, i, h, call)
      ensures !cleared ==> At(runtime.state, i, h, call, Done(Refused))
    {
      hide Inv, Reaches, Passes;
      ghost var start := runtime.state;
      runtime.Wait(i);
      ghost var at := runtime.state;
      var ts := runtime.ReadClock(5);
      var alive := BothAliveNow(i);
      var done := runtime.Perform(i, Observe(ts, alive));
      ReachesTransitive(start, at, runtime.state);
      return runtime.state.attempts[i].pc.Dispatching?;
    }

    /** The executor call. */
    method CallExecutor(i: nat, h: nat, call: Call)
      requires Inv(runtime.state) && DispatchingNow(runtime.state, i, h, call)
      modifies runtime
      ensures Inv(runtime.state) && Reaches(old(runtime.state), runtime.state)
      ensures At(runtime.state, i, h, call, Done(Sent)) && SentBy(runtime.state, i)
    {
      hide Inv, Reaches;
      ghost var start := runtime.state;
      runtime.Wait(i);
      ghost var at := runtime.state;
      var done := runtime.Perform(i, Send);
      ReachesTransitive(start, at, runtime.state);
      assert runtime.state.sent[|at.sent|].attempt == i;
    }

    /** ExecuteValidated: one attempt from consumption to the executor call. Whatever
        else happens meanwhile, a call that finds the handle used touches nothing, and
        every other call leaves it used for good. */
    method ExecuteValidated(i: nat, h: nat, call: Call) returns (r: Outcome)
      requires Inv(runtime.state) && At(runtime.state, i, h, call, Consuming) && h in runtime.state.handles
               && call.query in runtime.state.views
      modifies runtime
      ensures Inv(runtime.state) && Reaches(old(runtime.state), runtime.state)
      ensures At(runtime.state, i, h, call, Done(r))
      ensures h in runtime.state.handles && runtime.state.handles[h].usedBy.Some?
      ensures r != Consumed ==> runtime.state.handles[h].usedBy == Some(i)
      ensures r == Sent <==> SentBy(runtime.state, i)
      ensures r == Consumed ==> !AskedBy(runtime.state, i)
      ensures r == Sent ==> Entitled(call, runtime.state.handles[h].seal)
    {
      hide Inv, Reaches, Entitled;
      ghost var start := runtime.state;
      var won := Consume(i, h, call);
      if !won {
        r := Consumed;
      } else {
        ghost var mid := runtime.state;
        r := RunConsumed(i, h, call);
        ReachesTransitive(start, mid, runtime.state);
      }
      OutcomeMeans(runtime.state, i, h);
    }

    method RunConsumed(i: nat, h: nat, call: Call) returns (r: Outcome)
      requires Inv(runtime.state) && Working(runtime.state, i, h, call, Rebuilding)
      modifies runtime
      ensures Inv(runtime.state) && Reaches(old(runtime.state), runtime.state)
      ensures At(runtime.state, i, h, call, Done(r)) && r != Consumed && (r == Sent ==> SentBy(runtime.state, i))
      ensures h in runtime.state.handles && (r == Sent ==> Entitled(call, runtime.state.handles[h].seal))
    {
      hide Inv, Reaches;
      ghost var start := runtime.state;
      var e := RebuildBinding(i, h, call);
      SealStays(start, runtime.state, h);
      if e.None? { return Refused; }
      ghost var mid := runtime.state;
      if runtime.state.executions[e.value].authorizationRequired {
        ghost var p :| At(runtime.state, i, h, call, Requesting(e.value, p));
        var authorized := AuthorizeBinding(i, h, call, e.value, p);
        ReachesTransitive(start, mid, runtime.state);
        SealStays(start, runtime.state, h);
        if !authorized { return Refused; }
        mid := runtime.state;
      }
      r := Finish(i, h, call, e.value);
      ReachesTransitive(start, mid, runtime.state);
      SealStays(start, runtime.state, h);
    }

    method Finish(i: nat, h: nat, call: Call, e: nat) returns (r: Outcome)
      requires Inv(runtime.state) && Working(runtime.state, i, h, call, Checking(e)) && Mine(runtime.state, i, e)
      modifies runtime
      ensures Inv(runtime.state) && Reaches(old(runtime.state), runtime.state)
      ensures At(runtime.state, i, h, call, Done(r)) && r != Consumed && (r == Sent ==> SentBy(runtime.state, i))
    {
      hide Inv, Reaches;
      ghost var start := runtime.state;
      var passed := CheckPlan(i, h, call, e);
      if !passed { return Refused; }
      ghost var mid := runtime.state;
      var bound := TakePlan(i, h, call, e);
      ReachesTransitive(start, mid, runtime.state);
      if !bound { return Refused; }
      mid := runtime.state;
      var cleared := ObservePlan(i, h, call, e);
      ReachesTransitive(start, mid, runtime.state);
      if !cleared { return Refused; }
      mid := runtime.state;
      CallExecutor(i, h, call);
      ReachesTransitive(start, mid, runtime.state);
      return Sent;
    }
  }

  /** The call asserts what the handle was sealed over, on the query that sealed it. */
  predicate Entitled(call: Call, seal: Sealed) { Asserts(call.current, seal) && call.query == seal.owner }

  lemma RebuildNeedsSeal(v: QueryView, seal: Sealed, call: Call, t0: Time, t1: Time, alive: bool)
    ensures Rebuild(v, seal, call, t0, t1, alive).Some? ==> StillSealed(seal, call, v)
  {
    hide Rebuild, StillSealed;
    if Rebuild(v, seal, call, t0, t1, alive).Some? { RebuildMeansSealed(v, seal, call, t0, t1, alive); }
  }

  /** Seals never change. */
  lemma SealStays(s: State, s': State, h: nat)
    requires Inv(s) && Reaches(s, s') && h in s.handles
    ensures h in s'.handles && s'.handles[h].seal == s.handles[h].seal
  {
    hide Inv, Trace;
    var tr :| Trace(tr, s, s');
    TraceKeeps(tr, s, s');
  }

  predicate AskingNow(s: State, i: nat, h: nat, call: Call, e: nat) {
    && i in s.attempts && s.attempts[i].pc.Asking? && s.attempts[i].pc.execution == e
       && s.attempts[i].pc.id in s.requests
    && s.attempts[i].handle == Some(h) && s.attempts[i].call == call
    && h in s.handles && s.handles[h].usedBy == Some(i) && call.query in s.views
  }

  predicate DecidingNow(s: State, i: nat, h: nat, call: Call, e: nat) {
    && i in s.attempts && s.attempts[i].pc.Deciding? && s.attempts[i].pc.execution == e
       && s.attempts[i].pc.id in s.requests
    && s.attempts[i].handle == Some(h) && s.attempts[i].call == call
    && h in s.handles && s.handles[h].usedBy == Some(i) && call.query in s.views
  }

  predicate DispatchingNow(s: State, i: nat, h: nat, call: Call) {
    i in s.attempts && s.attempts[i].pc.Dispatching? && s.attempts[i].handle == Some(h) && s.attempts[i].call == call
  }

  /** What an attempt's end says about the handle and the logs. */
  lemma OutcomeMeans(s: State, i: nat, h: nat)
    requires Inv(s) && i in s.attempts && s.attempts[i].handle == Some(h) && s.attempts[i].pc.Done?
    ensures s.attempts[i].pc.outcome != Consumed ==> h in s.handles && s.handles[h].usedBy == Some(i)
    ensures s.attempts[i].pc.outcome != Sent ==> !SentBy(s, i)
    ensures s.attempts[i].pc.outcome == Consumed ==> !AskedBy(s, i)
  {
    hide ExecutionOk, DispatchOk, LogsOk, AskedBy, SentBy;
    assert AttemptOk(s, i);
  }
}
