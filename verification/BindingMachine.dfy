/** orm/query/execution.go, observation.go and the ExecuteValidated entries as a state
    machine: any number of attempts on shared handles and shared plans, a monotone
    clock, and inputs that change between any two steps. */
module BindingMachine {
  import opened Text
  import opened PlanBinding

  // ------------------------------------------------------------------------ state

  /** A handle and its copies share one used flag; the attempt that set it is kept. */
  datatype Handle = Handle(seal: Sealed, usedBy: Option<nat>)

  /** plannedExecution; maker is the attempt that rebuilt it, None for a plain plan. */
  datatype Execution = Execution(maker: Option<nat>, owner: nat, context: Option<Context>, gate: bool,
      authorizationRequired: bool, check: Option<Check>,
                                 bindingExpires: Option<Time>, expires: Option<Time>, usedBy: Option<nat>)

  datatype Outcome = Refused | Consumed | Sent

  /** What the last check before dispatch read. */
  datatype LastCheck = LastCheck(at: Time, view: QueryView)

  datatype PC =
    | Consuming
    | Rebuilding
    | Requesting(execution: nat, plan: Planned)
    | Asking(execution: nat, plan: Planned, id: nat)
    | Deciding(execution: nat, id: nat, decision: Decision)
    | Checking(execution: nat)
    | Binding(execution: nat)
    | Observing(execution: nat)
    | Dispatching(execution: nat, last: Option<LastCheck>)
    | Done(outcome: Outcome)

  /** One ExecuteValidated call on a handle, or one Execute of a plain plan. */
  datatype Attempt = Attempt(handle: Option<nat>, call: Call, pc: PC)

  datatype ProviderCall = ProviderCall(attempt: nat, id: nat, request: Material, reply: Option<Decision>)

  datatype Dispatch = Dispatch(attempt: nat, execution: nat, at: Time, last: Option<LastCheck>)

  datatype State = State(now: Time, canceled: set<nat>, views: map<nat, QueryView>,
                         handles: map<nat, Handle>, executions: map<nat, Execution>, requests: map<nat, Material>,
                             attempts: map<nat, Attempt>,
                         asked: seq<ProviderCall>, sent: seq<Dispatch>)

  const Init := State(1, {}, map[], map[], map[], map[], map[], [], [])

  // ---------------------------------------------------------------------- actions

  /** Nondecreasing clock readings from now on. */
  predicate Readings(s: State, ts: seq<Time>, n: nat) {
    |ts| == n && (n > 0 ==> s.now <= ts[0]) && forall i :: 0 <= i < n - 1 ==> ts[i] <= ts[i + 1]
  }

  function After(s: State, ts: seq<Time>): State { if ts == [] then s else s.(now := ts[|ts| - 1]) }

  /** A context that was already canceled is not found alive. */
  predicate AliveAllowed(s: State, c: Option<Context>, alive: bool) {
    alive && c.Some? ==> c.value.ref.id !in s.canceled
  }

  /** The contexts of an attempt: the execution's own and the query's. */
  predicate BothAlive(s: State, i: nat, alive: bool)
    requires Holds(s, i) && s.attempts[i].call.query in s.views
  {
    AliveAllowed(s, s.executions[s.attempts[i].pc.execution].context, alive)
        && AliveAllowed(s, s.views[s.attempts[i].call.query].context, alive)
  }

  datatype Action =
    | Tick(now: Time)                                   // time passes
    | Cancel(id: nat)
    | Change(query: nat, view: QueryView)               // any input changes
    | Seal(newHandle: nat, query: nat, context: Option<Context>, current: Current, expiry: Time, ts: seq<Time>,
        alive: bool)
    | Plan(execution: nat, query: nat)                  // a plain plan, outside validation
    | Arrive(handle: Option<nat>, execution: nat, call: Call)
    | Consume
    | Rebuilds(execution: nat, ts: seq<Time>, alive: bool)
    | Request(id: nat, ts: seq<Time>, alive: bool)
    | Reply(reply: Option<Decision>)                    // the provider's answer, once
    | FirstCheck(ts: seq<Time>, alive: bool)
    | CheckExecution(ts: seq<Time>, alive: bool)
    | BindExecution
    | Observe(ts: seq<Time>, alive: bool)
    | Send

  function SetPC(s: State, i: nat, pc: PC): State
    requires i in s.attempts
  {
    s.(attempts := s.attempts[i := s.attempts[i].(pc := pc)])
  }

  /** The execution an attempt holds. */
  predicate Holds(s: State, i: nat) {
    i in s.attempts &&
    match s.attempts[i].pc
    case Requesting(e, p) => e in s.executions
    case Deciding(e, id, d) => e in s.executions && id in s.requests
    case Checking(e) => e in s.executions
    case Binding(e) => e in s.executions
    case Observing(e) => e in s.executions
    case _ => false
  }

  predicate Enabled(s: State, i: nat, a: Action) {
    match a
    case Tick(now) => s.now <= now
    case Cancel(c) => true
    case Change(q, v) => true
    case Seal(h, q, context, current, expiry, ts, alive) =>
       h !in s.handles && q in s.views && Readings(s, ts, 3) && AliveAllowed(s, context, alive)
    case Plan(e, q) => e !in s.executions && q in s.views
    case Arrive(h, e, call) => i !in s.attempts && call.query in s.views
       && (if h.Some? then h.value in s.handles else e in s.executions && s.executions[e].maker.None?)
    case Consume => i in s.attempts && s.attempts[i].pc.Consuming? && s.attempts[i].handle.Some?
       && s.attempts[i].handle.value in s.handles
    case Rebuilds(e, ts, alive) =>
      && i in s.attempts && s.attempts[i].pc.Rebuilding? && s.attempts[i].handle.Some?
         && s.attempts[i].handle.value in s.handles
      && s.attempts[i].call.query in s.views && e !in s.executions && Readings(s, ts, 2)
         && AliveAllowed(s, s.attempts[i].call.context, alive)
    case Request(id, ts, alive) =>
      Holds(s, i) && s.attempts[i].pc.Requesting? && id !in s.requests && s.attempts[i].call.query in s.views
          && Readings(s, ts, 1)
      && BothAlive(s, i, alive)
      && s.attempts[i].handle.Some? && s.attempts[i].handle.value in s.handles
         && s.attempts[i].call.current.binding.Some?
    case Reply(r) => i in s.attempts && s.attempts[i].pc.Asking? && s.attempts[i].pc.id in s.requests
    case FirstCheck(ts, alive) =>
      Holds(s, i) && s.attempts[i].pc.Deciding? && s.attempts[i].call.query in s.views && Readings(s, ts, 5)
      && BothAlive(s, i, alive)
      && s.attempts[i].handle.Some? && s.attempts[i].handle.value in s.handles
    case CheckExecution(ts, alive) =>
      Holds(s, i) && s.attempts[i].pc.Checking? && s.attempts[i].call.query in s.views && Readings(s, ts, 7)
      && BothAlive(s, i, alive)
    case BindExecution => Holds(s, i) && s.attempts[i].pc.Binding?
    case Observe(ts, alive) =>
      Holds(s, i) && s.attempts[i].pc.Observing? && s.attempts[i].call.query in s.views && Readings(s, ts, 5)
      && BothAlive(s, i, alive)
    case Send => i in s.attempts && s.attempts[i].pc.Dispatching?
  }

  /** sealExecution for a plan made outside validation: needing authorization is a gate. */
  function PlainExecution(q: nat, v: QueryView): Execution {
    match v.planned
    case None => Execution(None, q, v.context, true, false, None, None, None, None)
    case Some(p) => Execution(None, q, v.context, p.authorizationRequired, p.authorizationRequired, None, None,
       p.expires, None)
  }

  function AfterConsume(s: State, i: nat): State
    requires Enabled(s, i, Consume)
  {
    var h := s.attempts[i].handle.value;
    if s.handles[h].usedBy.Some? then SetPC(s, i, Done(Consumed))
    else SetPC(s.(handles := s.handles[h := s.handles[h].(usedBy := Some(i))]), i, Rebuilding)
  }

  function AfterRebuild(s: State, i: nat, e: nat, ts: seq<Time>, alive: bool): State
    requires Enabled(s, i, Rebuilds(e, ts, alive))
  {
    var t := s.attempts[i];
    var seal := s.handles[t.handle.value].seal;
    var v := s.views[t.call.query];
    match Rebuild(v, seal, t.call, ts[0], ts[1], alive)
    case None => SetPC(s, i, Done(Refused))
    case Some(p) =>
      var x := Execution(Some(i), t.call.query, EffectiveContext(v, t.call.context).value, false,
          p.authorizationRequired, None,
                         Some(Deadline(seal.expires, p.expires)), p.expires, None);
      SetPC(s.(executions := s.executions[e := x]), i, if p.authorizationRequired then Requesting(e, p)
          else Checking(e))
  }

  /** authorizeBinding up to the provider call. */
  function AfterRequest(s: State, i: nat, id: nat, ts: seq<Time>, alive: bool): State
    requires Enabled(s, i, Request(id, ts, alive))
  {
    var t := s.attempts[i];
    var e := t.pc.execution;
    var m := MaterialOf(s.views[t.call.query], s.handles[t.handle.value].seal, t.call, s.executions[e].context,
        t.pc.plan);
    if t.pc.plan.atomic && !t.pc.plan.managed then SetPC(s, i, Done(Refused))
    else
      match NewRequest(m, ts[0], alive)
      case None => SetPC(s, i, Done(Refused))
      case Some(r) => SetPC(s.(requests := s.requests[id := r]), i, Asking(e, t.pc.plan, id))
  }

  function AfterReply(s: State, i: nat, r: Option<Decision>): State
    requires Enabled(s, i, Reply(r))
  {
    var pc := s.attempts[i].pc;
    SetPC(s.(asked := s.asked + [ProviderCall(i, pc.id, s.requests[pc.id], r)]), i,
          if r.None? then Done(Refused) else Deciding(pc.execution, pc.id, r.value))
  }

  /** The closure with everything it captures. */
  function CheckOf(s: State, i: nat): Check
    requires Holds(s, i) && s.attempts[i].pc.Deciding? && s.attempts[i].handle.Some?
             && s.attempts[i].handle.value in s.handles
  {
    var t := s.attempts[i];
    var x := s.executions[t.pc.execution];
    Check(s.handles[t.handle.value].seal, t.call, x.context, x.expires, t.pc.id, s.requests[t.pc.id], t.pc.decision)
  }

  predicate Passes(c: Check, v: QueryView, ts: seq<Time>, alive: bool)
    requires |ts| >= 5
  {
    CheckPasses(c, v, ts[0], ts[1], ts[2], ts[3], ts[4], alive)
  }

  function AfterFirstCheck(s: State, i: nat, ts: seq<Time>, alive: bool): State
    requires Enabled(s, i, FirstCheck(ts, alive))
  {
    var t := s.attempts[i];
    var e := t.pc.execution;
    var c := CheckOf(s, i);
    if !Passes(c, s.views[t.call.query], ts, alive) then SetPC(s, i, Done(Refused))
    else SetPC(s.(executions := s.executions[e := s.executions[e].(check := Some(c))]), i, Checking(e))
  }

  /** checkExecution: owner, gate, authorization, context, expiries, consumption. */
  predicate ExecutionPasses(x: Execution, call: Call, v: QueryView, ts: seq<Time>, alive: bool)
    requires |ts| == 7
  {
    && x.owner == call.query && !x.gate
    && (x.authorizationRequired ==> x.check.Some? && Passes(x.check.value, v, ts, alive))
    && alive && (x.bindingExpires.Some? ==> x.bindingExpires.value > ts[5])
       && (x.expires.Some? ==> x.expires.value > ts[6])
    && x.usedBy.None?
  }

  function AfterBind(s: State, i: nat): State
    requires Enabled(s, i, BindExecution)
  {
    var e := s.attempts[i].pc.execution;
    if s.executions[e].usedBy.Some? then SetPC(s, i, Done(Refused))
    else SetPC(s.(executions := s.executions[e := s.executions[e].(usedBy := Some(i))]), i, Observing(e))
  }

  /** observe: the last check before the executor is called. */
  function AfterObserve(s: State, i: nat, ts: seq<Time>, alive: bool): State
    requires Enabled(s, i, Observe(ts, alive))
  {
    var t := s.attempts[i];
    var e := t.pc.execution;
    var x := s.executions[e];
    var v := s.views[t.call.query];
    if !x.authorizationRequired then SetPC(s, i, Dispatching(e, None))
    else if x.check.None? || !Passes(x.check.value, v, ts, alive) then SetPC(s, i, Done(Refused))
    else SetPC(s, i, Dispatching(e, Some(LastCheck(ts[4], v))))
  }

  function Apply(s: State, i: nat, a: Action): State
    requires Enabled(s, i, a)
  {
    match a
    case Tick(now) => s.(now := now)
    case Cancel(c) => s.(canceled := s.canceled + {c})
    case Change(q, v) => s.(views := s.views[q := v])
    case Seal(h, q, context, current, expiry, ts, alive) =>
      (match Validate(q, s.views[q], context, current, expiry, ts[0], ts[1], ts[2], alive)
       case None => After(s, ts)
       case Some(seal) => After(s.(handles := s.handles[h := Handle(seal, None)]), ts))
    case Plan(e, q) => s.(executions := s.executions[e := PlainExecution(q, s.views[q])])
    case Arrive(h, e, call) =>
       s.(attempts := s.attempts[i := Attempt(h, call, if h.Some? then Consuming else Checking(e))])
    case Consume => AfterConsume(s, i)
    case Rebuilds(e, ts, alive) => After(AfterRebuild(s, i, e, ts, alive), ts)
    case Request(id, ts, alive) => After(AfterRequest(s, i, id, ts, alive), ts)
    case Reply(r) => AfterReply(s, i, r)
    case FirstCheck(ts, alive) => After(AfterFirstCheck(s, i, ts, alive), ts)
    case CheckExecution(ts, alive) =>
      var t := s.attempts[i];
      After(SetPC(s, i, if ExecutionPasses(s.executions[t.pc.execution], t.call, s.views[t.call.query], ts, alive)
          then Binding(t.pc.execution) else Done(Refused)), ts)
    case BindExecution => AfterBind(s, i)
    case Observe(ts, alive) => After(AfterObserve(s, i, ts, alive), ts)
    case Send =>
      var pc := s.attempts[i].pc;
      SetPC(s.(sent := s.sent + [Dispatch(i, pc.execution, s.now, pc.last)]), i, Done(Sent))
  }

  ghost predicate Next(s: State, s': State) { exists i, a :: Enabled(s, i, a) && s' == Apply(s, i, a) }

  ghost predicate Trace(tr: seq<State>, s: State, s': State) {
    |tr| > 0 && tr[0] == s && tr[|tr| - 1] == s' && forall k :: 0 <= k < |tr| - 1 ==> Next(tr[k], tr[k + 1])
  }

  ghost predicate Reaches(s: State, s': State) { exists tr: seq<State> :: Trace(tr, s, s') }
}
