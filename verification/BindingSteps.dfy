/** Exactly when each step of an execution attempt goes on. */
module BindingSteps {
  import opened Text
  import opened PlanBinding
  import opened BindingMachine

  predicate Stands(s: State, i: nat, pc: PC) { i in s.attempts && s.attempts[i].pc == pc }

  /** The handle is consumed by the first attempt that tries, and by no other. */
  lemma ConsumeExactly(s: State, i: nat)
    requires Enabled(s, i, Consume)
    ensures var h, t := s.attempts[i].handle.value, Apply(s, i, Consume);
            && h in t.handles && t.handles[h].seal == s.handles[h].seal
            && (Stands(t, i, Rebuilding) <==> s.handles[h].usedBy.None?)
            && (Stands(t, i, Done(Consumed)) <==> s.handles[h].usedBy.Some?)
            && t.handles[h].usedBy == (if s.handles[h].usedBy.None? then Some(i) else s.handles[h].usedBy)
  {
  }

  /** What the rebuilt execution carries: owner, context, both expiries, and whether it
      needs authorization; it is ungated, unused and unchecked. */
  lemma RebuildCarries(s: State, i: nat, e: nat, ts: seq<Time>, alive: bool)
    requires Enabled(s, i, Rebuilds(e, ts, alive))
    ensures var a, t := s.attempts[i], Apply(s, i, Rebuilds(e, ts, alive));
            var v, seal := s.views[a.call.query], s.handles[a.handle.value].seal;
            var found := Rebuild(v, seal, a.call, ts[0], ts[1], alive);
            && (found.None? <==> Stands(t, i, Done(Refused)))
            && (found.Some? ==>
                  && e in t.executions && v.planned == found
                  && var x := t.executions[e];
                     && x.maker == Some(i) && x.owner == a.call.query && !x.gate && x.check.None? && x.usedBy.None?
                     && x.context == (if a.call.context.None? then v.context else a.call.context)
                     && x.authorizationRequired == found.value.authorizationRequired && x.expires == found.value.expires
                     && x.bindingExpires == Some(if found.value.expires.Some?
                        && found.value.expires.value < seal.expires
                                                 then found.value.expires.value else seal.expires)
                     && Stands(t, i, if x.authorizationRequired then Requesting(e, found.value) else Checking(e)))
  {
  }

  /** A plan made outside validation that needs authorization, or failed, is gated. */
  lemma PlainGate(q: nat, v: QueryView)
    ensures PlainExecution(q, v).gate <==> v.planned.None? || v.planned.value.authorizationRequired
    ensures v.planned.Some? ==> PlainExecution(q, v).expires == v.planned.value.expires
    ensures PlainExecution(q, v).owner == q && PlainExecution(q, v).bindingExpires.None?
            && PlainExecution(q, v).usedBy.None?
  {
  }

  /** The provider is asked exactly for plans that are not atomic outside a managed
      transaction and whose material admits a request; and for that request. */
  lemma RequestsExactly(s: State, i: nat, id: nat, ts: seq<Time>, alive: bool)
    requires Enabled(s, i, Request(id, ts, alive))
    ensures var a, t := s.attempts[i], Apply(s, i, Request(id, ts, alive));
            var m := MaterialOf(s.views[a.call.query], s.handles[a.handle.value].seal, a.call,
                         s.executions[a.pc.execution].context, a.pc.plan);
            if (!a.pc.plan.atomic || a.pc.plan.managed) && NewRequest(m, ts[0], alive).Some? then
              && Stands(t, i, Asking(a.pc.execution, a.pc.plan, id))
              && id in t.requests && t.requests[id] == NewRequest(m, ts[0], alive).value
            else Stands(t, i, Done(Refused)) && t.requests == s.requests
  {
    hide NewRequest;
  }

  /** A provider error refuses unread; a decision is kept for the check. */
  lemma ReplyExactly(s: State, i: nat, r: Option<Decision>)
    requires Enabled(s, i, Reply(r))
    ensures var pc, t := s.attempts[i].pc, Apply(s, i, Reply(r));
            && Stands(t, i, if r.None? then Done(Refused) else Deciding(pc.execution, pc.id, r.value))
            && t.asked == s.asked + [ProviderCall(i, pc.id, s.requests[pc.id], r)]
  {
  }

  /** checkExecution lets an attempt on exactly if the plan is its own and ungated, its
      authorization check passes, its context lives, no expiry has come, and it is unused. */
  lemma CheckExactly(s: State, i: nat, ts: seq<Time>, alive: bool)
    requires Enabled(s, i, CheckExecution(ts, alive))
    ensures var a := s.attempts[i];
            var x, v, t := s.executions[a.pc.execution], s.views[a.call.query], Apply(s, i, CheckExecution(ts, alive));
            if && x.owner == a.call.query && !x.gate && alive && x.usedBy.None?
               && (x.bindingExpires.Some? ==> ts[5] < x.bindingExpires.value)
               && (x.expires.Some? ==> ts[6] < x.expires.value)
               && (x.authorizationRequired ==>
                     x.check.Some? && CheckPasses(x.check.value, v, ts[0], ts[1], ts[2], ts[3], ts[4], alive))
            then Stands(t, i, PC.Binding(a.pc.execution))
            else Stands(t, i, Done(Refused))
  {
    hide CheckPasses;
  }

  /** The plan is taken by the first attempt that binds it. */
  lemma BindExactly(s: State, i: nat)
    requires Enabled(s, i, BindExecution)
    ensures var e, t := s.attempts[i].pc.execution, Apply(s, i, BindExecution);
            && Stands(t, i, if s.executions[e].usedBy.None? then Observing(e) else Done(Refused))
            && e in t.executions
            && t.executions[e].usedBy == (if s.executions[e].usedBy.None? then Some(i) else s.executions[e].usedBy)
  {
  }

  /** The last check runs exactly where authorization is needed, and its passing alone
      leads to the executor call. */
  lemma ObserveExactly(s: State, i: nat, ts: seq<Time>, alive: bool)
    requires Enabled(s, i, Observe(ts, alive))
    ensures var a := s.attempts[i];
            var x, v, t := s.executions[a.pc.execution], s.views[a.call.query], Apply(s, i, Observe(ts, alive));
            if !x.authorizationRequired then Stands(t, i, Dispatching(a.pc.execution, None))
            else if x.check.Some? && CheckPasses(x.check.value, v, ts[0], ts[1], ts[2], ts[3], ts[4], alive)
            then Stands(t, i, Dispatching(a.pc.execution, Some(LastCheck(ts[4], v))))
            else Stands(t, i, Done(Refused))
  {
    hide CheckPasses;
  }

  // ------------------------------------------------------------------ cancellation

  predicate Canceled(s: State, c: Option<Context>) { c.Some? && c.value.ref.id in s.canceled }

  /** The plan's own context or the query's was canceled. */
  predicate ContextGone(s: State, i: nat)
    requires Holds(s, i) && s.attempts[i].call.query in s.views
  {
    || Canceled(s, s.executions[s.attempts[i].pc.execution].context)
    || Canceled(s, s.views[s.attempts[i].call.query].context)
  }

  /** Once a context is canceled no step that reads it goes on: the request is not made,
      and neither check passes. A last check of a plan without authorization reads none. */
  lemma CanceledRefuses(s: State, i: nat, a: Action)
    requires Enabled(s, i, a) && (a.Request? || a.FirstCheck? || a.CheckExecution? || a.Observe?)
    requires ContextGone(s, i)
    requires a.Observe? ==> s.executions[s.attempts[i].pc.execution].authorizationRequired
    ensures Stands(Apply(s, i, a), i, Done(Refused))
  {
    match a
    case Request(id, ts, alive) =>
      assert NewRequest(MaterialOf(s.views[s.attempts[i].call.query], s.handles[s.attempts[i].handle.value].seal,
          s.attempts[i].call, s.executions[s.attempts[i].pc.execution].context, s.attempts[i].pc.plan), ts[0],
          alive).None?;
    case FirstCheck(ts, alive) => assert !alive;
    case CheckExecution(ts, alive) => CheckExactly(s, i, ts, alive);
    case Observe(ts, alive) => ObserveExactly(s, i, ts, alive);
    case _ =>
  }

  /** A rebuild over a canceled call context refuses as well. */
  lemma CanceledRebuildRefuses(s: State, i: nat, e: nat, ts: seq<Time>, alive: bool)
    requires Enabled(s, i, Rebuilds(e, ts, alive)) && Canceled(s, s.attempts[i].call.context)
    ensures Stands(Apply(s, i, Rebuilds(e, ts, alive)), i, Done(Refused))
  {
  }
}
