/** orm/command_store.go: CommandStore.Run, apply and lookup as they run against the
    database, with any number of other callers acting between two round trips. */
module CommandStore {
  import opened Text
  import Json
  import opened CommandInput
  import CommandRoundTrip
  import CommandSnapshot
  import opened LedgerMachine
  import LedgerProof
  import LedgerSteps
  import LedgerTheorems
  import LedgerCounts

  /** s' follows s in some run in which caller i itself did not move. */
  ghost predicate Waited(s: State, s': State, i: nat) {
    && LedgerProof.Inv(s') && Reaches(s, s')
    && (i in s.callers <==> i in s'.callers)
    && (i in s.callers ==> s'.callers[i] == s.callers[i])
    && (i in s'.txs ==> i in s.txs && s'.txs[i] == s.txs[i])
  }

  lemma WaitedTransitive(s: State, t: State, u: State, i: nat)
    requires Waited(s, t, i) && Waited(t, u, i)
    ensures Waited(s, u, i)
  {
    hide LedgerProof.Inv, Reaches;
    LedgerTheorems.ReachesTransitive(s, t, u);
  }

  /** What another caller does leaves caller i and its transaction alone; the server
      may still drop that transaction. */
  lemma OthersLeaveAlone(s: State, j: nat, a: Action, i: nat)
    requires LedgerProof.Inv(s) && Enabled(s, j, a) && (j != i || a.ServerAbort?)
    ensures Waited(s, Apply(s, j, a), i)
  {
    hide LedgerProof.Inv, Reaches, Canonical, Json.TextLength, Accepts, Requests, ReadRow, SummaryDoc, Reservation,
         KeyFree, ExpectationMet, NextStatement;
    LedgerSteps.StepKeepsInv(s, j, a);
    LedgerTheorems.OneStepReaches(s, j, a);
  }

  /** The expected row of lookup: method form of ReadRow. */
  method CheckRow(c: Caller, row: Row, input: Json.Value, fingerprint: Digest, steps: nat) returns (r: Outcome)
    requires input == InputOf(c) && fingerprint == DigestOf(c) && steps == |PlanOf(c)|
    ensures r == ReadRow(c, row)
  {
    hide Canonical, Json.TextLength, Requests, SummaryDoc, DecodeSummary, Fingerprint, ScopeDoc, DocVersion;
    if row.version != 1 || row.status != 1 || Json.TextLength(ScopeDoc(row.scope)) > MAX_BYTES
       || Json.TextLength(row.input) > MAX_BYTES {
      return Corrupt;
    }
    if row.result.None? || Json.TextLength(row.result.value) > MAX_BYTES { return Corrupt; }
    var actual := CommandSnapshot.CommandFingerprint(row.input);
    if actual != Some(row.fingerprint) { return Corrupt; }
    if row.scope != c.scope || row.input != input || row.fingerprint != fingerprint { return Conflict; }
    var summary := DecodeSummary(row.result.value);
    if summary.None? || summary.value.version != 1 || |summary.value.counts| != steps { return Corrupt; }
    var counts := summary.value.counts;
    var n := 0;
    while n < |counts|
      invariant 0 <= n <= |counts|
      invariant forall k :: 0 <= k < n ==> counts[k] >= 0
    {
      if counts[n] < 0 { return Corrupt; }
      n := n + 1;
    }
    if SummaryDoc(1, counts) != row.result.value { return Corrupt; }
    return Success(counts, false);
  }

  /** A caller past validation holds an accepted command. */
  lemma ActiveAccepts(s: State, i: nat)
    requires LedgerProof.Inv(s) && i in s.callers && !s.callers[i].pc.Start? && !s.callers[i].pc.Done?
    ensures Accepts(s.callers[i].command)
    ensures s.callers[i].pc.Execute? ==> |s.callers[i].pc.counts| < |PlanOf(s.callers[i])|
  {
    hide LedgerProof.TxOk, LedgerProof.CommitOk, LedgerProof.KeysOk, Accepts, Canonical, Requests, Json.TextLength,
         SummaryDoc, LedgerProof.CommittedBy;
    assert LedgerProof.CallerOk(s, i);
  }

  /** The snapshot of an active caller, computed again. */
  method SnapshotOf(s: State, i: nat) returns (input: Json.Value, plan: seq<Request>)
    requires LedgerProof.Inv(s) && i in s.callers && !s.callers[i].pc.Start? && !s.callers[i].pc.Done?
    ensures input == InputOf(s.callers[i]) && plan == PlanOf(s.callers[i])
  {
    hide LedgerProof.Inv, Accepts, Canonical, Requests;
    ActiveAccepts(s, i);
    var r := CommandSnapshot.SnapshotCommand(s.callers[i].command, s.callers[i].scope.schema);
    return r.value.0, r.value.1;
  }

  method ServeRead(s: State, i: nat) returns (s': State)
    requires LedgerProof.Inv(s) && i in s.callers && (s.callers[i].pc.Lookup? || s.callers[i].pc.Reread?)
    ensures s' == AfterRead(s, i)
  {
    hide LedgerProof.Inv, Accepts, Canonical, Requests, ReadRow, DocVersion;
    var c := s.callers[i];
    if KeyOf(c) !in s.rows { return SetPC(s, i, if c.pc.Lookup? then Begin else Done(Unknown)); }
    var input, plan := SnapshotOf(s, i);
    var r := CheckRow(c, s.rows[KeyOf(c)], input, Digest(DocVersion(c.command), input), |plan|);
    return SetPC(s, i, Done(r));
  }

  method ServeInsert(s: State, i: nat) returns (s': State)
    requires LedgerProof.Inv(s) && i in s.callers && s.callers[i].pc.Reserve?
    ensures s' == AfterInsert(s, i)
  {
    hide LedgerProof.Inv, Accepts, Canonical, Requests, DocVersion;
    var c := s.callers[i];
    var input, plan := SnapshotOf(s, i);
    var row := Row(1, 0, c.scope, input, Digest(DocVersion(c.command), input), None);
    return SetPC(s.(txs := s.txs[i := Tx(Some(row), [])]), i, if |plan| == 0 then Save([]) else Execute([]));
  }

  method ServeStatement(s: State, i: nat, n: int) returns (s': State)
    requires LedgerProof.Inv(s) && Statement(s, i) && i in s.txs && |s.callers[i].pc.counts| < |PlanOf(s.callers[i])|
    ensures s' == AfterStatement(s, i, n)
  {
    hide LedgerProof.Inv, Accepts, Canonical, Requests;
    var c, tx := s.callers[i], s.txs[i];
    var input, plan := SnapshotOf(s, i);
    var r := plan[|c.pc.counts|];
    if !ExpectationMet(r, n) { return SetPC(s, i, Undo(Done(if n < 0 then Corrupt else Failure))); }
    var counts := c.pc.counts + [n];
    return SetPC(s.(txs := s.txs[i := tx.(effects := tx.effects + [Effect(r, n)])]), i, if |counts| == |plan|
           then Save(counts) else Execute(counts));
  }

  class Database {
    var state: State

    constructor ()
      ensures state == Init
    {
      state := Init;
    }

    /** One action of caller i, if it can happen now. */
    method Perform(i: nat, a: Action) returns (done: bool)
      requires LedgerProof.Inv(state)
      modifies this
      ensures done <==> Enabled(old(state), i, a)
      ensures state == if done then Apply(old(state), i, a) else old(state)
      ensures LedgerProof.Inv(state) && Reaches(old(state), state)
    {
      hide LedgerProof.Inv, Reaches, Canonical, Json.TextLength, Accepts, Requests, ReadRow, SummaryDoc, Reservation,
           KeyFree, ExpectationMet,
           NextStatement, AfterRead, AfterInsert, AfterStatement, AfterUpdate;
      ghost var before := state;
      done := false;
      if a.Arrive? {
        if i !in state.callers && i !in state.txs && Json.TextLength(ScopeDoc(a.scope)) <= MAX_BYTES {
          done, state := true, state.(callers := state.callers[i := Caller(a.scope, a.command, Start)]);
        }
      } else if a.ServerAbort? {
        if i in state.txs { done, state := true, DropTx(state, i); }
      } else if i in state.callers {
        var c := state.callers[i];
        match a {
          case LateCommit =>
            if i in state.txs && state.txs[i].reserved.Some? && state.txs[i].reserved.value.status == 1
               && (c.pc == Done(Unknown) || c.pc == Done(Crashed)) {
              done, state := true, Publish(state, i);
            }
          case Crash => if !c.pc.Done? { done, state := true, SetPC(state, i, Done(Crashed)); }
          case Validate(ok) =>
            if c.pc.Start? {
              var snapshot := CommandSnapshot.SnapshotCommand(c.command, c.scope.schema);
              if ok ==> snapshot.Some? { done, state := true, SetPC(state, i, if ok then Lookup else Done(Failure)); }
            }
          case Read(ok) =>
            if c.pc.Lookup? || c.pc.Reread? {
              if ok { state := ServeRead(state, i); } else { state := SetPC(state, i, Done(Failure)); }
              done := true;
            }
          case Open(ok) =>
            if c.pc.Begin? {
              done, state := true, if ok then SetPC(state.(txs := state.txs[i := Tx(None, [])]), i, Reserve)
                  else SetPC(state, i, Done(Failure));
            }
          case Insert(reply) =>
            if c.pc.Reserve? && (reply.Inserted? ==> i in state.txs && KeyFree(state, i, KeyOf(c)))
               && (reply.UniqueViolation? ==> KeyOf(c) in state.rows) {
              if reply.Inserted? { state := ServeInsert(state, i); }
              else { state := SetPC(state, i, Undo(if reply.UniqueViolation? then Reread else Done(Failure))); }
              done := true;
            }
          case Run(n) =>
            if c.pc.Execute? && i in state.txs {
              ActiveAccepts(state, i);
              state := ServeStatement(state, i, n);
              done := true;
            }
          case RunError => if c.pc.Execute? { done, state := true, SetPC(state, i, Undo(Done(Failure))); }
          case Update(ok) =>
            if c.pc.Save? && (ok ==> i in state.txs) {
              done, state := true, if ok then AfterUpdate(state, i) else SetPC(state, i, Undo(Done(Failure)));
            }
          case Cancel => if c.pc.Commit? { done, state := true, SetPC(state, i, Undo(Done(Failure))); }
          case CommitReply(applied, ok) =>
            if c.pc.Commit? && (applied ==> i in state.txs) && (ok ==> applied) {
              done, state := true, SetPC(if applied then Publish(state, i)
                  else state, i, Done(if ok then Success(c.pc.counts, true) else Unknown));
            }
          case RollbackReply(ok) =>
            if c.pc.Undo? {
              done, state := true, if ok then SetPC(DropTx(state, i), i, c.pc.cause)
                  else SetPC(state, i, Done(Unknown));
            }
        }
      }
      if done {
        LedgerSteps.StepKeepsInv(before, i, a);
        LedgerTheorems.OneStepReaches(before, i, a);
      } else { LedgerTheorems.StayReaches(before); }
    }

    /** Any finite number of actions of the other callers and of the server. */
    method Wait(i: nat)
      requires LedgerProof.Inv(state)
      modifies this
      ensures Waited(old(state), state, i)
    {
      hide LedgerProof.Inv, Reaches, Enabled, Apply;
      ghost var start := state;
      LedgerTheorems.StayReaches(start);
      var n: nat := *;
      while n > 0
        invariant Waited(start, state, i)
      {
        var j: nat, a: Action := *, *;
        if j != i || a.ServerAbort? {
          ghost var before := state;
          var done := Perform(j, a);
          if done { OthersLeaveAlone(before, j, a, i); WaitedTransitive(start, before, state, i); }
        }
        n := n - 1;
      }
    }
  }

  /** Caller i of store scope runs c and stands at pc. */
  ghost predicate At(s: State, i: nat, scope: Scope, c: Command, pc: PC) {
    i in s.callers && s.callers[i] == Caller(scope, c, pc)
  }

  class Store {
    const db: Database
    const scope: Scope

    constructor (db: Database, scope: Scope)
      ensures this.db == db && this.scope == scope
    {
      this.db, this.scope := db, scope;
    }

    /** One round trip: others act first, then the action if it is possible. */
    method Send(i: nat, a: Action) returns (done: bool, ghost at: State)
      requires LedgerProof.Inv(db.state)
      modifies db
      ensures LedgerProof.Inv(db.state) && Reaches(old(db.state), db.state)
      ensures Waited(old(db.state), at, i) && (done <==> Enabled(at, i, a))
      ensures db.state == if done then LedgerMachine.Apply(at, i, a) else at
    {
      hide LedgerProof.Inv, Reaches, Enabled, LedgerMachine.Apply;
      ghost var start := db.state;
      db.Wait(i);
      at := db.state;
      done := db.Perform(i, a);
      LedgerTheorems.ReachesTransitive(start, at, db.state);
    }

    /** lookup: None when the ledger has no such row. */
    method Lookup(i: nat, c: Command, again: bool) returns (r: Option<Outcome>)
      requires LedgerProof.Inv(db.state) && At(db.state, i, scope, c, if again then Reread else PC.Lookup)
      modifies db
      ensures LedgerProof.Inv(db.state) && Reaches(old(db.state), db.state)
      ensures r.None? ==> !again && At(db.state, i, scope, c, Begin)
      ensures r.Some? ==> At(db.state, i, scope, c, Done(r.value))
    {
      hide LedgerProof.Inv, Reaches, Canonical, Json.TextLength, Accepts, Requests, ReadRow, SummaryDoc;
      var ok: bool := *;
      var done, at := Send(i, Read(ok));
      var pc := db.state.callers[i].pc;
      return if pc.Done? then Some(pc.outcome) else None;
    }

    /** rollback(cause): only a confirmed rollback returns its cause. */
    method Rollback(i: nat, c: Command, cause: PC) returns (confirmed: bool)
      requires LedgerProof.Inv(db.state) && At(db.state, i, scope, c, Undo(cause))
      modifies db
      ensures LedgerProof.Inv(db.state) && Reaches(old(db.state), db.state)
      ensures At(db.state, i, scope, c, if confirmed then cause else Done(Unknown))
      ensures confirmed ==> i !in db.state.txs
    {
      hide LedgerProof.Inv, Reaches, Canonical, Json.TextLength, Accepts, Requests, ReadRow, SummaryDoc;
      confirmed := *;
      var done, at := Send(i, RollbackReply(confirmed));
    }

    /** The reservation by unique key. */
    method Reserve(i: nat, c: Command, plan: seq<Request>) returns (r: Option<Outcome>)
      requires LedgerProof.Inv(db.state) && At(db.state, i, scope, c, PC.Reserve) && plan == Requests(c, scope.schema)
      modifies db
      ensures LedgerProof.Inv(db.state) && Reaches(old(db.state), db.state)
      ensures r.None? ==> At(db.state, i, scope, c, if |plan| == 0 then PC.Save([]) else PC.Execute([]))
      ensures r.Some? ==> At(db.state, i, scope, c, Done(r.value))
    {
      hide LedgerProof.Inv, Reaches, Canonical, Json.TextLength, Accepts, Requests, ReadRow, SummaryDoc, Reservation,
           KeyFree;
      ghost var start := db.state;
      var reply: InsertReply := *;
      var done, at := Send(i, Insert(reply));
      if !done {
        // The server cannot answer so now; any other error is always possible.
        ghost var mid := db.state;
        reply := OtherError;
        done, at := Send(i, Insert(reply));
        LedgerTheorems.ReachesTransitive(start, mid, db.state);
      }
      if reply.Inserted? { return None; }
      var cause := if reply.UniqueViolation? then Reread else Done(Failure);
      ghost var mid := db.state;
      var confirmed := Rollback(i, c, cause);
      LedgerTheorems.ReachesTransitive(start, mid, db.state);
      if !confirmed { return Some(Unknown); }
      if !reply.UniqueViolation? { return Some(Failure); }
      mid := db.state;
      r := Lookup(i, c, true);
      LedgerTheorems.ReachesTransitive(start, mid, db.state);
    }

    /** One business statement; None when it met its expectation with n rows. */
    method Execute(i: nat, c: Command, plan: seq<Request>, counts: seq<int>) returns (r: Option<Outcome>, n: int)
      requires LedgerProof.Inv(db.state) && At(db.state, i, scope, c, PC.Execute(counts))
               && plan == Requests(c, scope.schema) && |counts| < |plan|
      modifies db
      ensures LedgerProof.Inv(db.state) && Reaches(old(db.state), db.state)
      ensures r.None? ==> LedgerCounts.CountAllowed(c, |counts|, n)
      ensures r.None? ==> At(db.state, i, scope, c, if |counts| + 1 == |plan| then PC.Save(counts + [n])
              else PC.Execute(counts + [n]))
      ensures r.Some? ==> At(db.state, i, scope, c, Done(r.value))
    {
      hide LedgerProof.Inv, Reaches, Canonical, Json.TextLength, Accepts, Requests, ReadRow, SummaryDoc, Reservation,
           KeyFree, ExpectationMet, LedgerCounts.PlansStep, LedgerCounts.PlansHook, LedgerCounts.CountAllowed;
      ghost var start := db.state;
      n := *;
      var done, at := Send(i, Action.Run(n));
      if done && ExpectationMet(plan[|counts|], n) {
        LedgerCounts.PlanMeans(c, scope.schema);
        LedgerCounts.ExpectationMeans(c, scope.schema, |counts|, n);
        return None, n;
      }
      var cause := Done(if done && n < 0 then Corrupt else Failure);
      if !done {
        // The transaction is gone: the statement can only fail.
        ghost var mid := db.state;
        done, at := Send(i, RunError);
        LedgerTheorems.ReachesTransitive(start, mid, db.state);
      }
      ghost var mid := db.state;
      var confirmed := Rollback(i, c, cause);
      LedgerTheorems.ReachesTransitive(start, mid, db.state);
      return Some(if confirmed then cause.outcome else Unknown), n;
    }

    /** The result and status of the reservation. */
    method Save(i: nat, c: Command, counts: seq<int>) returns (r: Option<Outcome>)
      requires LedgerProof.Inv(db.state) && At(db.state, i, scope, c, PC.Save(counts))
      modifies db
      ensures LedgerProof.Inv(db.state) && Reaches(old(db.state), db.state)
      ensures r.None? ==> At(db.state, i, scope, c, PC.Commit(counts))
      ensures r.Some? ==> At(db.state, i, scope, c, Done(r.value))
    {
      hide LedgerProof.Inv, Reaches, Canonical, Json.TextLength, Accepts, Requests, ReadRow, SummaryDoc, Reservation,
           KeyFree;
      ghost var start := db.state;
      var ok: bool := *;
      var done, at := Send(i, Update(ok));
      if !done {
        ghost var mid := db.state;
        done, at := Send(i, Update(false));
        LedgerTheorems.ReachesTransitive(start, mid, db.state);
      }
      var pc := db.state.callers[i].pc;
      if pc.Commit? { return None; }
      ghost var mid := db.state;
      var confirmed := Rollback(i, c, pc.cause);
      LedgerTheorems.ReachesTransitive(start, mid, db.state);
      return Some(if confirmed then pc.cause.outcome else Unknown);
    }

    /** The last context check and the commit; a lost reply leaves the outcome unknown. */
    method Commit(i: nat, c: Command, counts: seq<int>) returns (r: Outcome)
      requires LedgerProof.Inv(db.state) && At(db.state, i, scope, c, PC.Commit(counts))
      modifies db
      ensures LedgerProof.Inv(db.state) && Reaches(old(db.state), db.state)
      ensures At(db.state, i, scope, c, Done(r))
      ensures r.Success? ==> r == Success(counts, true)
    {
      hide LedgerProof.Inv, Reaches, Canonical, Json.TextLength, Accepts, Requests, ReadRow, SummaryDoc, Reservation,
           KeyFree;
      ghost var start := db.state;
      var cancelled: bool := *;
      if cancelled {
        var done, at := Send(i, Cancel);
        ghost var mid := db.state;
        var confirmed := Rollback(i, c, Done(Failure));
        LedgerTheorems.ReachesTransitive(start, mid, db.state);
        return if confirmed then Failure else Unknown;
      }
      var applied: bool, ok: bool := *, *;
      var done, at := Send(i, CommitReply(applied, ok));
      if !done {
        ok := false;
        ghost var mid := db.state;
        done, at := Send(i, CommitReply(false, false));
        LedgerTheorems.ReachesTransitive(start, mid, db.state);
      }
      return if ok then Success(counts, true) else Unknown;
    }

    /** apply: reservation, every statement in order, result, commit. */
    method Apply(i: nat, c: Command, plan: seq<Request>) returns (r: Outcome)
      requires LedgerProof.Inv(db.state) && At(db.state, i, scope, c, Begin) && plan == Requests(c, scope.schema)
      modifies db
      ensures LedgerProof.Inv(db.state) && Reaches(old(db.state), db.state) && At(db.state, i, scope, c, Done(r))
    {
      hide LedgerProof.Inv, Reaches, Canonical, Json.TextLength, Accepts, Requests, ReadRow, SummaryDoc, Reservation,
           KeyFree, ExpectationMet;
      ghost var start := db.state;
      var ok: bool := *;
      var done, at := Send(i, Open(ok));
      if !ok { return Failure; }
      ghost var mid := db.state;
      var refused := Reserve(i, c, plan);
      LedgerTheorems.ReachesTransitive(start, mid, db.state);
      if refused.Some? { return refused.value; }
      var rowsAffected: seq<int> := [];
      while |rowsAffected| < |plan|
        invariant |rowsAffected| <= |plan|
        invariant LedgerProof.Inv(db.state) && Reaches(start, db.state)
        invariant At(db.state, i, scope, c, if |rowsAffected| == |plan| then PC.Save(rowsAffected)
                  else PC.Execute(rowsAffected))
      {
        mid := db.state;
        var n;
        refused, n := Execute(i, c, plan, rowsAffected);
        LedgerTheorems.ReachesTransitive(start, mid, db.state);
        if refused.Some? { return refused.value; }
        rowsAffected := rowsAffected + [n];
      }
      mid := db.state;
      refused := Save(i, c, rowsAffected);
      LedgerTheorems.ReachesTransitive(start, mid, db.state);
      if refused.Some? { return refused.value; }
      mid := db.state;
      r := Commit(i, c, rowsAffected);
      LedgerTheorems.ReachesTransitive(start, mid, db.state);
    }

    /** Run: validate, look up a replay, otherwise apply. The answer is what the whole
        run, with everything the others did meanwhile, entitles this caller to say. */
    method Run(i: nat, c: Command) returns (r: Outcome)
      requires LedgerProof.Inv(db.state) && i !in db.state.callers && i !in db.state.txs
      requires Json.TextLength(ScopeDoc(scope)) <= MAX_BYTES
      modifies db
      ensures LedgerProof.Inv(db.state) && Reaches(old(db.state), db.state)
      ensures At(db.state, i, scope, c, Done(r)) && Honest(db.state, i, scope, c, r)
      ensures Key(scope, c.id) in old(db.state).rows ==> !LedgerProof.CommittedBy(db.state, i)
    {
      hide LedgerProof.Inv, Reaches, Canonical, Json.TextLength, Accepts, Requests, ReadRow, SummaryDoc, Reservation,
           KeyFree, ExpectationMet, LedgerProof.CommittedBy;
      ghost var start := db.state;
      var arrived := db.Perform(i, Arrive(scope, c));
      var input := CommandSnapshot.SnapshotCommand(c, scope.schema);
      var planned: bool := *;
      ghost var mid := db.state;
      var done, at := Send(i, Validate(input.Some? && planned));
      LedgerTheorems.ReachesTransitive(start, mid, db.state);
      if input.None? || !planned {
        r := Failure;
      } else {
        mid := db.state;
        var existing := Lookup(i, c, false);
        LedgerTheorems.ReachesTransitive(start, mid, db.state);
        if existing.Some? {
          r := existing.value;
        } else {
          mid := db.state;
          r := Apply(i, c, input.value.1);
          LedgerTheorems.ReachesTransitive(start, mid, db.state);
        }
      }
      RunIsHonest(db.state, i, scope, c, r);
      LatecomersNeverCommit(start, db.state, i);
    }
  }

  /** What each answer of Run means about the database. */
  ghost predicate Honest(s: State, i: nat, scope: Scope, c: Command, r: Outcome) {
    var k := Key(scope, c.id);
    && (r.Success? ==>
          && Accepts(c) && k in s.rows && s.rows[k].input == Canonical(c)
          && s.rows[k].result == Some(SummaryDoc(1, r.counts)) && LedgerCounts.CountsAllowed(c, r.counts)
          && (r.applied <==> LedgerProof.CommittedBy(s, i)))
    && (r.Failure? || r.Conflict? || r.Corrupt? ==> !LedgerProof.CommittedBy(s, i) && i !in s.txs)
  }

  lemma RunIsHonest(s: State, i: nat, scope: Scope, c: Command, r: Outcome)
    requires LedgerProof.Inv(s) && At(s, i, scope, c, Done(r))
    ensures Honest(s, i, scope, c, r)
  {
    hide LedgerProof.TxOk, LedgerProof.CommitOk, LedgerProof.KeysOk, LedgerProof.Follows, Canonical, Json.TextLength,
         Accepts, Requests, ScopeDoc, SummaryDoc, LedgerProof.CommittedBy, LedgerCounts.CountsAllowed;
    assert LedgerProof.CallerOk(s, i);
    if r.Success? { LedgerCounts.SuccessMeetsOptions(s, i); }
  }

  /** Whoever arrives after a commit of its key does not commit again. */
  lemma LatecomersNeverCommit(s: State, s': State, i: nat)
    requires LedgerProof.Inv(s) && Reaches(s, s') && i !in s.callers && i in s'.callers
    ensures KeyOf(s'.callers[i]) in s.rows ==> !LedgerProof.CommittedBy(s', i)
  {
    hide LedgerProof.TxOk, LedgerProof.CallerOk, LedgerProof.Follows, Canonical, Json.TextLength, Accepts, Requests,
         ScopeDoc, SummaryDoc, CountsOf, DocVersion;
    var tr :| Trace(tr, s, s');
    LedgerTheorems.TraceKeeps(tr, s, s');
    forall b | 0 <= b < |s'.log| && KeyOf(s'.callers[i]) in s.rows ensures s'.log[b].caller != i {
      var a :| 0 <= a < |s.log| && s.log[a].key == KeyOf(s'.callers[i]);
      assert s'.log[a] == s.log[a];
      assert LedgerProof.CommitOk(s, a) && LedgerProof.CommitOk(s', b);
      assert a != b ==> s'.log[a].key != s'.log[b].key;
    }
  }
}
