/** Action by action: the ledger invariant is kept. */
module LedgerSteps {
  import opened Text
  import Json
  import opened CommandInput
  import opened LedgerMachine
  import opened LedgerProof
  import opened LedgerRuns

  /** A step that moves only the program counter. */
  lemma MoveStep(s: State, i: nat, pc: PC)
    requires Inv(s) && i in s.callers && CallerOk(SetPC(s, i, pc), i)
    ensures Inv(SetPC(s, i, pc))
  {
    hide CallerOk, CommitOk, KeysOk, Accepts, Follows, Json.TextLength, SummaryDoc, Canonical, Requests, DocVersion,
         CountsOf, ScopeDoc;
    var s' := SetPC(s, i, pc);
    if i in s.txs { assert TxOk(s, i); TxFrame(s, s', i); }
    LocalStep(s, s', i);
  }

  /** Starting to roll back is always allowed. */
  lemma UndoStep(s: State, i: nat, cause: PC)
    requires Inv(s) && i in s.callers && !s.callers[i].pc.Done? && !s.callers[i].pc.Start?
    requires cause == Reread || cause == Done(Failure) || cause == Done(Corrupt)
    ensures Inv(SetPC(s, i, Undo(cause)))
  {
    hide TxOk, CommitOk, KeysOk, Accepts, Follows, Json.TextLength, SummaryDoc, Canonical, Requests, DocVersion,
         CountsOf, ScopeDoc, Reservation, Finished, CommittedBy;
    assert CallerOk(s, i);
    SameLog(s, SetPC(s, i, Undo(cause)), i);
    MoveStep(s, i, Undo(cause));
  }

  lemma RollbackStep(s: State, i: nat, ok: bool)
    requires Inv(s) && i in s.callers && s.callers[i].pc.Undo?
    ensures Inv(if ok then SetPC(DropTx(s, i), i, s.callers[i].pc.cause) else SetPC(s, i, Done(Unknown)))
  {
    hide TxOk, CommitOk, KeysOk, Accepts, Follows, Json.TextLength, SummaryDoc, Canonical, Requests, DocVersion,
         CountsOf, ScopeDoc, Reservation, Finished, CommittedBy;
    assert CallerOk(s, i);
    if ok {
      var s' := SetPC(DropTx(s, i), i, s.callers[i].pc.cause);
      SameLog(s, s', i);
      LocalStep(s, s', i);
    } else {
      MoveStep(s, i, Done(Unknown));
    }
  }

  lemma SameLog(s: State, s': State, i: nat)
    requires s.log == s'.log
    ensures CommittedBy(s', i) <==> CommittedBy(s, i)
  {
  }

  lemma ArriveStep(s: State, i: nat, scope: Scope, command: Command)
    requires Inv(s) && Enabled(s, i, Arrive(scope, command))
    ensures Inv(Apply(s, i, Arrive(scope, command)))
  {
    hide TxOk, KeysOk, Accepts, Follows, Json.TextLength, SummaryDoc, Canonical, Requests, DocVersion, CountsOf,
         ScopeDoc, Reservation, Finished;
    var s' := Apply(s, i, Arrive(scope, command));
    forall a | 0 <= a < |s.log| ensures s.log[a].caller != i { assert CommitOk(s, a); }
    LocalStep(s, s', i);
  }

  lemma AbortStep(s: State, i: nat)
    requires Inv(s) && i in s.txs
    ensures Inv(DropTx(s, i))
  {
    hide TxOk, KeysOk, Accepts, Follows, Json.TextLength, SummaryDoc, Canonical, Requests, DocVersion, CountsOf,
         ScopeDoc, Reservation, Finished;
    var s' := DropTx(s, i);
    TxHasCaller(s, i);
    assert CallerOk(s, i);
    SameLog(s, s', i);
    LocalStep(s, s', i);
  }

  lemma TxHasCaller(s: State, i: nat)
    requires i in s.txs && TxOk(s, i)
    ensures i in s.callers
  {
  }

  lemma ReadStep(s: State, i: nat)
    requires Inv(s) && i in s.callers && (s.callers[i].pc.Lookup? || s.callers[i].pc.Reread?)
    ensures Inv(AfterRead(s, i))
  {
    hide TxOk, KeysOk, Accepts, Follows, Json.TextLength, SummaryDoc, Canonical, Requests, DocVersion, CountsOf,
         ScopeDoc, ReadRow;
    var c := s.callers[i];
    var s' := AfterRead(s, i);
    assert CallerOk(s, i);
    SameLog(s, s', i);
    if KeyOf(c) in s.rows { ReadAnswers(s, i); }
    MoveStep(s, i, s'.callers[i].pc);
  }

  /** What a read of a committed row can answer. */
  lemma ReadAnswers(s: State, i: nat)
    requires Inv(s) && i in s.callers && KeyOf(s.callers[i]) in s.rows && Accepts(s.callers[i].command)
    ensures var c := s.callers[i];
            var r := ReadRow(c, s.rows[KeyOf(c)]);
            r == Conflict || (r.Success? && !r.applied && s.rows[KeyOf(c)] == Finished(c, r.counts))
  {
    hide TxOk, CallerOk, Accepts, Follows, Json.TextLength, SummaryDoc, Canonical, Requests, DocVersion, CountsOf,
         ScopeDoc, Finished, ReadRow;
    var c := s.callers[i];
    var a :| 0 <= a < |s.log| && s.log[a].key == KeyOf(c);
    assert CommitOk(s, a);
    ReadIsExact(c, s.callers[s.log[a].caller], s.log[a].effects);
  }

  lemma OpenStep(s: State, i: nat)
    requires Inv(s) && i in s.callers && s.callers[i].pc.Begin?
    ensures Inv(SetPC(s.(txs := s.txs[i := Tx(None, [])]), i, Reserve))
  {
    hide CommitOk, KeysOk, Accepts, Follows, Json.TextLength, SummaryDoc, Canonical, Requests, DocVersion, CountsOf,
         ScopeDoc, Reservation, Finished;
    var s' := SetPC(s.(txs := s.txs[i := Tx(None, [])]), i, Reserve);
    assert CallerOk(s, i);
    SameLog(s, s', i);
    LocalStep(s, s', i);
  }

  lemma InsertStep(s: State, i: nat)
    requires Inv(s) && i in s.callers && s.callers[i].pc.Reserve? && i in s.txs && KeyFree(s, i, KeyOf(s.callers[i]))
    ensures Inv(AfterInsert(s, i))
  {
    hide CommitOk, KeysOk, Accepts, Json.TextLength, SummaryDoc, Canonical, Requests, DocVersion, ScopeDoc, Finished,
         CommittedBy;
    var s' := AfterInsert(s, i);
    assert CallerOk(s, i) && TxOk(s, i);
    SameLog(s, s', i);
    NothingFollows(PlanOf(s.callers[i]));
    LocalStep(s, s', i);
  }

  lemma NothingFollows(plan: seq<Request>)
    ensures Follows([], plan) && CountsOf([]) == []
  {
  }

  /** One more statement that met its expectation. */
  lemma FollowsOneMore(effects: seq<Effect>, plan: seq<Request>, e: Effect)
    requires Follows(effects, plan) && |effects| < |plan|
    requires e.request == plan[|effects|] && ExpectationMet(e.request, e.count)
    ensures Follows(effects + [e], plan) && CountsOf(effects + [e]) == CountsOf(effects) + [e.count]
  {
    hide ExpectationMet, Follows;
    FollowsNext(effects, plan, e);
    assert (effects + [e])[..|effects|] == effects;
  }

  lemma FollowsNext(effects: seq<Effect>, plan: seq<Request>, e: Effect)
    requires Follows(effects, plan) && |effects| < |plan|
    requires e.request == plan[|effects|] && ExpectationMet(e.request, e.count)
    ensures Follows(effects + [e], plan)
  {
    hide ExpectationMet;
    var more := effects + [e];
    forall k | 0 <= k < |more| ensures more[k].request == plan[k] && ExpectationMet(plan[k], more[k].count) {
      if k < |effects| { assert more[k] == effects[k]; }
    }
  }

  lemma StatementStep(s: State, i: nat, n: int)
    requires Inv(s) && Statement(s, i) && |s.callers[i].pc.counts| < |PlanOf(s.callers[i])| && i in s.txs
    ensures Inv(AfterStatement(s, i, n))
  {
    hide CommitOk, KeysOk, Accepts, Follows, Json.TextLength, SummaryDoc, Canonical, Requests, DocVersion, CountsOf,
         ScopeDoc, Finished, ExpectationMet, CommittedBy;
    var c := s.callers[i];
    var r := PlanOf(c)[|c.pc.counts|];
    assert CallerOk(s, i) && TxOk(s, i);
    if ExpectationMet(r, n) {
      var tx := s.txs[i];
      var s' := AfterStatement(s, i, n);
      CountsLength(tx.effects);
      ReservationIsPending(c, CountsOf(tx.effects));
      FollowsOneMore(tx.effects, PlanOf(c), Effect(r, n));
      SameLog(s, s', i);
      LocalStep(s, s', i);
    } else {
      UndoStep(s, i, Done(if n < 0 then Corrupt else Failure));
    }
  }

  lemma ReservationIsPending(c: Caller, counts: seq<int>)
    ensures Reservation(c) != Finished(c, counts)
    ensures Reservation(c).status == 0 && Finished(c, counts).status == 1
  {
  }

  lemma UpdateStep(s: State, i: nat)
    requires Inv(s) && i in s.callers && s.callers[i].pc.Save? && i in s.txs
    ensures Inv(AfterUpdate(s, i))
  {
    hide CommitOk, KeysOk, Accepts, Follows, Json.TextLength, SummaryDoc, Canonical, Requests, DocVersion, CountsOf,
         ScopeDoc;
    var c, tx := s.callers[i], s.txs[i];
    assert CallerOk(s, i) && TxOk(s, i);
    if Json.TextLength(SummaryDoc(1, c.pc.counts)) > MAX_BYTES || tx.reserved.None? || tx.reserved.value.status != 0 {
      UndoStep(s, i, Done(Corrupt));
    } else {
      var s' := AfterUpdate(s, i);
      CountsLength(tx.effects);
      SameLog(s, s', i);
      LocalStep(s, s', i);
    }
  }

  lemma CommitStep(s: State, i: nat, applied: bool, ok: bool)
    requires Inv(s) && Enabled(s, i, CommitReply(applied, ok))
    ensures Inv(Apply(s, i, CommitReply(applied, ok)))
  {
    hide CommitOk, KeysOk, Accepts, Follows, Json.TextLength, SummaryDoc, Canonical, Requests, DocVersion, CountsOf,
         ScopeDoc, Reservation, Finished, CommittedBy;
    assert CallerOk(s, i);
    if applied {
      PublishStep(s, Apply(s, i, CommitReply(applied, ok)), i,
          Done(if ok then Success(s.callers[i].pc.counts, true) else Unknown));
    } else {
      MoveStep(s, i, Done(Unknown));
    }
  }

  lemma LateCommitStep(s: State, i: nat)
    requires Inv(s) && Enabled(s, i, LateCommit)
    ensures Inv(Publish(s, i))
  {
    hide CommitOk, KeysOk, Accepts, Follows, Json.TextLength, SummaryDoc, Canonical, Requests, DocVersion, CountsOf,
         ScopeDoc, CommittedBy, CallerOk;
    var c := s.callers[i];
    assert TxOk(s, i);
    assert SetPC(Publish(s, i), i, c.pc) == Publish(s, i);
    PublishStep(s, Publish(s, i), i, c.pc);
  }

  /** The invariant is kept by every action of every caller. */
  lemma StepKeepsInv(s: State, i: nat, a: Action)
    requires Inv(s) && Enabled(s, i, a)
    ensures Inv(Apply(s, i, a))
  {
    hide TxOk, CommitOk, KeysOk, Accepts, Follows, Json.TextLength, SummaryDoc, Canonical, Requests, DocVersion,
         CountsOf, ScopeDoc,
         Reservation, Finished, CommittedBy, CallerOk, Inv, Publish, ReadRow, AfterRead, AfterInsert, AfterUpdate,
         AfterStatement, KeyFree;
    match a
    case Arrive(scope, command) => ArriveStep(s, i, scope, command);
    case ServerAbort => AbortStep(s, i);
    case LateCommit => LateCommitStep(s, i);
    case Crash => CrashStep(s, i);
    case Validate(ok) => ValidateStep(s, i, ok);
    case Read(ok) => if ok { ReadStep(s, i); } else { FailStep(s, i); }
    case Open(ok) => if ok { OpenStep(s, i); } else { FailStep(s, i); }
    case Insert(reply) => if reply.Inserted? {
      InsertStep(s, i);
    } else { UndoStep(s, i, if reply.UniqueViolation? then Reread else Done(Failure)); }
    case Run(n) => StatementStep(s, i, n);
    case RunError => UndoStep(s, i, Done(Failure));
    case Update(ok) => if ok { UpdateStep(s, i); } else { UndoStep(s, i, Done(Failure)); }
    case Cancel => UndoStep(s, i, Done(Failure));
    case RollbackReply(ok) => RollbackStep(s, i, ok);
    case CommitReply(applied, ok) => CommitStep(s, i, applied, ok);
  }

  lemma CrashStep(s: State, i: nat)
    requires Inv(s) && Enabled(s, i, Crash)
    ensures Inv(SetPC(s, i, Done(Crashed)))
  {
    hide TxOk, CommitOk, KeysOk, Accepts, Follows, Json.TextLength, SummaryDoc, Canonical, Requests, DocVersion,
         CountsOf, ScopeDoc, Reservation, Finished, CommittedBy;
    assert CallerOk(s, i);
    MoveStep(s, i, Done(Crashed));
  }

  lemma ValidateStep(s: State, i: nat, ok: bool)
    requires Inv(s) && Enabled(s, i, Validate(ok))
    ensures Inv(Apply(s, i, Validate(ok)))
  {
    hide TxOk, CommitOk, KeysOk, Accepts, Follows, Json.TextLength, SummaryDoc, Canonical, Requests, DocVersion,
         CountsOf, ScopeDoc, Reservation, Finished, CommittedBy;
    assert CallerOk(s, i);
    var s' := Apply(s, i, Validate(ok));
    SameLog(s, s', i);
    MoveStep(s, i, if ok then Lookup else Done(Failure));
  }

  lemma FailStep(s: State, i: nat)
    requires Inv(s) && i in s.callers && (s.callers[i].pc.Lookup? || s.callers[i].pc.Reread? || s.callers[i].pc.Begin?)
    ensures Inv(SetPC(s, i, Done(Failure)))
  {
    hide TxOk, CommitOk, KeysOk, Accepts, Follows, Json.TextLength, SummaryDoc, Canonical, Requests, DocVersion,
         CountsOf, ScopeDoc, Reservation, Finished, CommittedBy;
    assert CallerOk(s, i);
    SameLog(s, SetPC(s, i, Done(Failure)), i);
    MoveStep(s, i, Done(Failure));
  }
}
