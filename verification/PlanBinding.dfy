/** orm/query/binding.go, authorization.go, authorization_execution.go: what a
    validated plan seals, how it is rebuilt from current inputs, and when a
    provider's decision authorizes it. Every clock reading is an argument. */
module PlanBinding {
  import opened Text

  /** Nanoseconds; the zero time is the unset one. */
  type Time = int

  const ZERO_TIME: Time := 0

  /** Canonical bytes, compared as a whole. */
  type Doc = string

  /** A reference compared by identity; unsound ones are incomparable or typed nil. */
  datatype Ref = Ref(id: nat, sound: bool)

  datatype Context = Context(ref: Ref, deadline: Option<Time>)

  datatype BindingInput = BindingInput(key: Doc, scope: string, generation: string, target: string, dialect: string)

  /** BindingCurrent: what the application asserts on this very call. */
  datatype Current = Current(registration: Option<nat>, binding: Option<BindingInput>, settings: Option<Doc>,
                             database: string, schemaDatabase: Option<string>, schemaDialect: string)

  /** What one planning pass would find now; None where the pass fails. */
  datatype Planned = Planned(identity: Doc, inspection: Option<Doc>, identifiable: bool, expires: Option<Time>,
                             authorizationRequired: bool, atomic: bool, managed: bool)

  datatype QueryView = QueryView(ready: bool, executor: Ref, context: Option<Context>, registration: Option<nat>,
      dialect: string,
                                 settings: Option<Doc>, operation: Option<Doc>, planned: Option<Planned>,
                                 tenant: Doc, tenantPresent: bool)

  datatype Ids = Ids(binding: BindingInput, identity: Doc)

  /** bindingState without its used flag. */
  datatype Sealed = Sealed(registration: Option<nat>, owner: nat, executor: Ref, context: Option<Context>,
      queryContext: Option<Context>,
                           binding: BindingInput, identity: Doc, ids: Ids, settings: Doc, operation: Doc,
                               inspection: Doc, expires: Time)

  /** The arguments of one ExecuteValidated call. */
  datatype Call = Call(query: nat, context: Option<Context>, current: Current, family: string)

  function Deadline(explicit: Time, approval: Option<Time>): (r: Time)
    ensures r <= explicit && (approval.Some? ==> r <= approval.value)
    ensures r == explicit || approval == Some(r)
  {
    if approval.Some? && approval.value < explicit then approval.value else explicit
  }

  predicate Same(a: Ref, b: Ref) { a.sound && b.sound && a == b }

  predicate SameContext(a: Option<Context>, b: Option<Context>) {
    (a.None? && b.None?) || (a.Some? && b.Some? && Same(a.value.ref, b.value.ref) && a == b)
  }

  predicate SoundContext(c: Option<Context>) { c.None? || c.value.ref.sound }

  /** bindingContext: the caller's context, or the query's own. */
  function EffectiveContext(v: QueryView, c: Option<Context>): Option<Option<Context>> {
    var effective := if c.None? then v.context else c;
    if !v.ready || !SoundContext(effective) || !SoundContext(v.context) then None else Some(effective)
  }

  /** checkBindingCurrent. */
  function CheckCurrent(v: QueryView, c: Current): Option<Doc> {
    if c.registration != v.registration then None
    else if c.binding.None? || |c.binding.value.key| < 32 || c.database == "" || c.schemaDatabase.None?
            || c.binding.value.target != c.database || c.binding.value.target != c.schemaDatabase.value
            || c.binding.value.dialect != c.schemaDialect then None
    else if v.dialect != c.binding.value.dialect then None
    else if c.settings.None? || v.settings.None? || c.settings != v.settings then None
    else c.settings
  }

  /** validateBinding at clock readings t0 <= t1 <= t2; alive tells that no context
      check failed in between. */
  function Validate(q: nat, v: QueryView, context: Option<Context>, c: Current, expiry: Time, t0: Time, t1: Time,
      t2: Time, alive: bool): Option<Sealed> {
    match (EffectiveContext(v, context), CheckCurrent(v, c), v.operation, v.planned)
    case (Some(effective), Some(settings), Some(operation), Some(p)) =>
      var expires := Deadline(expiry, p.expires);
      if expiry == ZERO_TIME || expiry <= t0 || !alive || !p.identifiable || expires <= t1 || p.inspection.None?
         || expires <= t2 then None
      else Some(Sealed(v.registration, q, v.executor, effective, v.context, c.binding.value, p.identity,
         Ids(c.binding.value, p.identity),
                       settings, operation, p.inspection.value, expires))
    case _ => None
  }

  /** rebuildBinding at readings t0 <= t1: the plan found now, if it is the sealed one. */
  function Rebuild(v: QueryView, s: Sealed, call: Call, t0: Time, t1: Time, alive: bool): Option<Planned> {
    match (EffectiveContext(v, call.context), CheckCurrent(v, call.current), v.operation, v.planned)
    case (Some(effective), Some(settings), Some(operation), Some(p)) =>
      if s.registration != v.registration then None
      else if s.owner != call.query || !SameContext(s.context, effective) || !SameContext(s.queryContext, v.context)
         then None
      else if !Same(s.executor, v.executor) || s.expires <= t0 || !alive then None
      else if s.binding != call.current.binding.value || s.settings != settings || s.operation != operation then None
      else if p.inspection.None? || !p.identifiable then None
      else if Ids(call.current.binding.value, p.identity) != s.ids || s.inspection != p.inspection.value
         || s.identity != p.identity then None
      else if Deadline(s.expires, p.expires) <= t1 then None
      else Some(p)
    case _ => None
  }

  // ------------------------------------------------------------------ authorization

  /** authorizationMaterial. */
  datatype Material = Material(registration: Option<nat>, owner: nat, executor: Ref, context: Option<Context>,
      queryContext: Option<Context>,
                               binding: BindingInput, identity: Doc, settings: Doc, operation: Doc, inspection: Doc,
                               family: string, tenant: Doc, tenantPresent: bool, ceiling: Time)

  /** authorizationBindingMaterial, from the freshly rebuilt plan. */
  function MaterialOf(v: QueryView, s: Sealed, call: Call, executionContext: Option<Context>, p: Planned): Material
    requires call.current.binding.Some?
  {
    Material(v.registration, call.query, v.executor, executionContext, v.context, call.current.binding.value,
        p.identity,
             s.settings, s.operation, s.inspection, call.family, v.tenant, v.tenantPresent,
                 Deadline(s.expires, p.expires))
  }

  predicate KnownFamily(f: string) { f in {"select", "count", "insert", "batch", "update", "delete"} }

  /** authorizationValid. */
  predicate MaterialValid(m: Material, now: Time, alive: bool) {
    && m.registration.Some? && m.settings != "" && m.operation != "" && m.inspection != "" && m.tenantPresent
    && KnownFamily(m.family) && SoundContext(m.context) && SoundContext(m.queryContext) && alive
    && m.ceiling != ZERO_TIME && m.ceiling > now
  }

  function Lower(ceiling: Time, c: Option<Context>): Time {
    if c.Some? then Deadline(ceiling, c.value.deadline) else ceiling
  }

  /** newAuthorizationRequest: the ceiling is lowered to both context deadlines. */
  function NewRequest(m: Material, now: Time, alive: bool): Option<Material> {
    var lowered := m.(ceiling := Lower(Lower(m.ceiling, m.context), m.queryContext));
    if MaterialValid(m, now, alive) && lowered.ceiling > now then Some(lowered) else None
  }

  /** authorizationMatches: everything but the ceiling. */
  predicate Matches(a: Material, b: Material) {
    && a.registration == b.registration && a.owner == b.owner && Same(a.executor, b.executor)
    && SameContext(a.context, b.context) && SameContext(a.queryContext, b.queryContext)
    && a.binding == b.binding && a.family == b.family && a.tenantPresent == b.tenantPresent && a.identity == b.identity
    && a.settings == b.settings && a.operation == b.operation && a.inspection == b.inspection && a.tenant == b.tenant
  }

  /** AuthorizationDecision; the request is named by its identity. */
  datatype Decision = Decision(request: Option<nat>, status: nat, expires: Time)

  const ALLOW: nat := 1

  predicate WithinDeadline(t: Time, c: Option<Context>) {
    c.Some? && c.value.deadline.Some? ==> t <= c.value.deadline.value
  }

  /** validateAuthorization of a reply to request id with material r. */
  predicate Authorized(id: nat, r: Material, current: Material, d: Decision, now: Time, alive: bool) {
    && MaterialValid(current, now, alive) && MaterialValid(r, now, alive)
    && d.request == Some(id) && Matches(r, current) && d.status == ALLOW && d.expires != ZERO_TIME
    && d.expires <= r.ceiling && d.expires <= current.ceiling
    && WithinDeadline(d.expires, current.context) && WithinDeadline(d.expires, current.queryContext)
    && d.expires > now
  }

  /** The closure stored in authorizationCheck. */
  datatype Check = Check(seal: Sealed, call: Call, context: Option<Context>, approval: Option<Time>, id: nat,
      request: Material, decision: Decision)

  /** The closure run at readings t0 <= t1 <= t2 <= t3 <= t4. */
  predicate CheckPasses(c: Check, v: QueryView, t0: Time, t1: Time, t2: Time, t3: Time, t4: Time, alive: bool) {
    && SoundContext(c.context) && SoundContext(v.context) && alive
    && c.seal.expires > t0 && (c.approval.Some? ==> c.approval.value > t1)
    && var p := Rebuild(v, c.seal, c.call, t2, t3, alive);
       p.Some? && c.call.current.binding.Some?
       && Authorized(c.id, c.request, MaterialOf(v, c.seal, c.call, c.context, p.value), c.decision, t4, alive)
  }

  /** What the application asserts now: the sealed registration, settings and binding,
      one database on all sides, and a key of at least 32 bytes. */
  predicate Asserts(c: Current, s: Sealed) {
    && c.registration == s.registration && c.settings == Some(s.settings) && c.binding == Some(s.binding)
    && |s.binding.key| >= 32 && c.database != "" && s.binding.target == c.database
    && c.schemaDatabase == Some(s.binding.target) && c.schemaDialect == s.binding.dialect
  }

  /** What the current inputs must share with the seal. */
  predicate StillSealed(s: Sealed, call: Call, v: QueryView) {
    && v.registration == s.registration && call.query == s.owner && v.executor == s.executor
    && Asserts(call.current, s) && v.dialect == s.binding.dialect
    && v.settings == Some(s.settings) && v.operation == Some(s.operation)
    && v.planned.Some? && v.planned.value.identity == s.identity && v.planned.value.inspection == Some(s.inspection)
    && SameContext(s.queryContext, v.context)
  }

  /** A context that is the sealed one, or the query's own where the call names none. */
  predicate ContextStays(s: Sealed, call: Call, v: QueryView) {
    && v.ready && SoundContext(v.context) && SoundContext(call.context)
    && SameContext(s.context, if call.context.None? then v.context else call.context)
  }

  /** Exactly when a sealed plan is found again: nothing the seal was taken over has
      changed, and no expiry has come. */
  lemma RebuildExactly(v: QueryView, s: Sealed, call: Call, t0: Time, t1: Time, alive: bool)
    requires s.ids == Ids(s.binding, s.identity)
    ensures Rebuild(v, s, call, t0, t1, alive).Some? <==>
            && StillSealed(s, call, v) && ContextStays(s, call, v) && s.executor.sound && alive
            && v.planned.value.identifiable && t0 < s.expires && t1 < s.expires
            && (v.planned.value.expires.Some? ==> t1 < v.planned.value.expires.value)
    ensures Rebuild(v, s, call, t0, t1, alive).Some? ==> Some(Rebuild(v, s, call, t0, t1, alive).value) == v.planned
  {
  }

  /** Exactly when a plan can be validated, and what is sealed. */
  lemma ValidateExactly(q: nat, v: QueryView, context: Option<Context>, c: Current, expiry: Time, t0: Time, t1: Time,
      t2: Time, alive: bool)
    ensures Validate(q, v, context, c, expiry, t0, t1, t2, alive).Some? <==>
            && v.ready && SoundContext(v.context) && SoundContext(context) && alive
            && c.registration == v.registration && c.settings.Some? && c.settings == v.settings
            && c.binding.Some? && |c.binding.value.key| >= 32 && c.database != ""
               && c.binding.value.target == c.database
            && c.schemaDatabase == Some(c.binding.value.target) && c.schemaDialect == c.binding.value.dialect
            && v.dialect == c.binding.value.dialect && v.operation.Some?
            && v.planned.Some? && v.planned.value.identifiable && v.planned.value.inspection.Some?
            && expiry != 0 && t0 < expiry && t1 < expiry && t2 < expiry
            && (v.planned.value.expires.Some? ==>
                  t1 < v.planned.value.expires.value && t2 < v.planned.value.expires.value)
    ensures Validate(q, v, context, c, expiry, t0, t1, t2, alive).Some? ==>
              var s := Validate(q, v, context, c, expiry, t0, t1, t2, alive).value;
              && s.registration == v.registration && s.owner == q && s.executor == v.executor
              && s.context == (if context.None? then v.context else context) && s.queryContext == v.context
              && c.binding == Some(s.binding) && v.settings == Some(s.settings) && v.operation == Some(s.operation)
              && s.identity == v.planned.value.identity && v.planned.value.inspection == Some(s.inspection)
              && s.ids == Ids(s.binding, s.identity)
              && s.expires == (if v.planned.value.expires.Some? && v.planned.value.expires.value < expiry
                               then v.planned.value.expires.value else expiry)
  {
  }

  lemma RebuildMeansSealed(v: QueryView, s: Sealed, call: Call, t0: Time, t1: Time, alive: bool)
    requires Rebuild(v, s, call, t0, t1, alive).Some?
    ensures StillSealed(s, call, v) && v.planned == Some(Rebuild(v, s, call, t0, t1, alive).value)
    ensures t0 < s.expires && t1 < Deadline(s.expires, v.planned.value.expires)
    ensures EffectiveContext(v, call.context).Some? && SameContext(s.context, EffectiveContext(v, call.context).value)
  {
  }

  /** A passing check: the decision allows this very request and outlasts the reading,
      yet no expiry, approval or context deadline is exceeded, and the current inputs
      are the sealed ones. */
  lemma PassingCheckMeans(c: Check, v: QueryView, t0: Time, t1: Time, t2: Time, t3: Time, t4: Time, alive: bool)
    requires CheckPasses(c, v, t0, t1, t2, t3, t4, alive)
    ensures StillSealed(c.seal, c.call, v)
    ensures c.decision.request == Some(c.id) && c.decision.status == ALLOW
    ensures t4 < c.decision.expires <= c.seal.expires && c.decision.expires <= c.request.ceiling
    ensures v.planned.value.expires.Some? ==> c.decision.expires <= v.planned.value.expires.value
    ensures WithinDeadline(c.decision.expires, c.context) && WithinDeadline(c.decision.expires, v.context)
    ensures c.request.tenant == v.tenant && c.request.identity == c.seal.identity && c.request.family == c.call.family
    ensures c.request.registration == c.seal.registration && c.request.binding == c.seal.binding
            && c.request.operation == c.seal.operation
  {
    RebuildMeansSealed(v, c.seal, c.call, t2, t3, alive);
  }

  /** Two materials that differ at most in their ceilings, over one sound executor and
      sound contexts. */
  predicate SameMaterial(a: Material, b: Material) {
    && a.(ceiling := b.ceiling) == b && a.executor.sound && SoundContext(a.context) && SoundContext(a.queryContext)
  }

  /** A material a decision can be asked about: registered, described, with a tenant,
      of a known family, and not past its ceiling. */
  predicate Askable(m: Material, now: Time) {
    && m.registration.Some? && m.settings != "" && m.operation != "" && m.inspection != "" && m.tenantPresent
    && m.family in {"select", "count", "insert", "batch", "update", "delete"}
    && SoundContext(m.context) && SoundContext(m.queryContext) && m.ceiling != 0 && now < m.ceiling
  }

  /** Exactly when a decision authorizes: an allow for this very request and material,
      after now and within every ceiling and context deadline. */
  lemma AuthorizedExactly(id: nat, r: Material, current: Material, d: Decision, now: Time, alive: bool)
    ensures Authorized(id, r, current, d, now, alive) <==>
            && alive && Askable(r, now) && Askable(current, now) && SameMaterial(r, current)
            && d.request == Some(id) && d.status == 1 && d.expires != 0 && now < d.expires
            && d.expires <= r.ceiling && d.expires <= current.ceiling
            && WithinDeadline(d.expires, current.context) && WithinDeadline(d.expires, current.queryContext)
  {
  }

  /** Exactly when the stored re-check passes: live contexts, no expiry reached, the
      sealed plan still there, and the decision good for the material found now. */
  lemma CheckPassesExactly(c: Check, v: QueryView, t0: Time, t1: Time, t2: Time, t3: Time, t4: Time, alive: bool)
    requires c.seal.ids == Ids(c.seal.binding, c.seal.identity)
    ensures CheckPasses(c, v, t0, t1, t2, t3, t4, alive) <==>
            && alive && SoundContext(c.context) && SoundContext(v.context)
            && t0 < c.seal.expires && (c.approval.Some? ==> t1 < c.approval.value)
            && StillSealed(c.seal, c.call, v) && ContextStays(c.seal, c.call, v) && c.seal.executor.sound
            && v.planned.value.identifiable && t2 < c.seal.expires && t3 < c.seal.expires
            && (v.planned.value.expires.Some? ==> t3 < v.planned.value.expires.value)
            && Authorized(c.id, c.request, MaterialOf(v, c.seal, c.call, c.context, v.planned.value), c.decision, t4,
               alive)
  {
    hide Authorized, Rebuild, ContextStays;
    RebuildExactly(v, c.seal, c.call, t2, t3, alive);
  }

  /** The request asks for no longer than the handle, the approval and both contexts allow. */
  lemma RequestExactly(m: Material, now: Time, alive: bool)
    ensures NewRequest(m, now, alive).Some? <==>
            && alive && Askable(m, now)
            && (m.context.Some? && m.context.value.deadline.Some? ==> now < m.context.value.deadline.value)
            && (m.queryContext.Some? && m.queryContext.value.deadline.Some?
               ==> now < m.queryContext.value.deadline.value)
    ensures NewRequest(m, now, alive).Some? ==>
              var r := NewRequest(m, now, alive).value;
              && r.(ceiling := m.ceiling) == m && r.ceiling <= m.ceiling
              && WithinDeadline(r.ceiling, m.context) && WithinDeadline(r.ceiling, m.queryContext)
              && (r.ceiling == m.ceiling
                  || (m.context.Some? && m.context.value.deadline == Some(r.ceiling))
                  || (m.queryContext.Some? && m.queryContext.value.deadline == Some(r.ceiling)))
  {
  }

  /** A handle that validates can be rebuilt while nothing changes: from the inputs it
      was sealed over, before its expiry, with live contexts. */
  lemma SealedRebuilds(q: nat, v: QueryView, context: Option<Context>, c: Current, expiry: Time, t0: Time, t1: Time,
      t2: Time, family: string, u0: Time, u1: Time)
    requires Validate(q, v, context, c, expiry, t0, t1, t2, true).Some? && v.executor.sound
    requires u0 <= u1 < Validate(q, v, context, c, expiry, t0, t1, t2, true).value.expires
    ensures Rebuild(v, Validate(q, v, context, c, expiry, t0, t1, t2, true).value, Call(q, context, c, family), u0,
            u1, true) == v.planned
  {
  }
}
