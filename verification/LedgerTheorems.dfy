/** What the ledger promises over every interleaving of any number of callers. */
module LedgerTheorems {
  import opened Text
  import Json
  import opened CommandInput
  import CommandRoundTrip
  import opened LedgerMachine
  import opened LedgerProof
  import opened LedgerRuns
  import opened LedgerSteps

  lemma InitInv()
    ensures Inv(Init)
  {
    assert forall i, k :: !Reserving(Init, i, k);
  }

  // ------------------------------------------------------- what a run never undoes

  /** Committed work, ledger rows and final answers are permanent. */
  ghost predicate Extends(s: State, s': State) {
    && s.log <= s'.log
    && (forall k :: k in s.rows ==> k in s'.rows && s'.rows[k] == s.rows[k])
    && (forall i :: i in s.callers ==>
          && i in s'.callers && s'.callers[i].scope == s.callers[i].scope
             && s'.callers[i].command == s.callers[i].command
          && (s.callers[i].pc.Done? ==> s'.callers[i].pc == s.callers[i].pc))
  }

  lemma PublishExtends(s: State, i: nat)
    requires Inv(s) && i in s.txs && i in s.callers && s.txs[i].reserved.Some?
    ensures Extends(s, Publish(s, i))
  {
    hide CallerOk, CommitOk, KeysOk, Accepts, Follows, Json.TextLength, SummaryDoc, Canonical, Requests, DocVersion,
         CountsOf, ScopeDoc, Reservation, Finished;
    assert TxOk(s, i);
  }

  lemma StepExtends(s: State, i: nat, a: Action)
    requires Inv(s) && Enabled(s, i, a)
    ensures Extends(s, Apply(s, i, a))
  {
    hide TxOk, CallerOk, CommitOk, KeysOk, Accepts, Follows, Json.TextLength, SummaryDoc, Canonical, Requests,
         DocVersion, CountsOf, ScopeDoc,
         Reservation, Finished, Publish, ReadRow, KeyFree, NextStatement, ExpectationMet;
    if a.LateCommit? { PublishExtends(s, i); }
    if a.CommitReply? && a.applied {
      assert s.txs[i].reserved.Some? by { CommitHoldsRow(s, i); }
      PublishExtends(s, i);
      AnswerExtends(s, Publish(s, i), i, Done(if a.ok then Success(s.callers[i].pc.counts, true) else Unknown));
    }
  }

  lemma AnswerExtends(s: State, p: State, i: nat, pc: PC)
    requires Extends(s, p) && i in s.callers && !s.callers[i].pc.Done? && i in p.callers
    ensures Extends(s, SetPC(p, i, pc))
  {
  }

  lemma CommitHoldsRow(s: State, i: nat)
    requires Inv(s) && i in s.callers && s.callers[i].pc.Commit? && i in s.txs
    ensures s.txs[i].reserved.Some?
  {
    hide TxOk, CommitOk, KeysOk, Accepts, Follows, Json.TextLength, SummaryDoc, Canonical, Requests, DocVersion,
         CountsOf, ScopeDoc, Reservation, Finished;
    assert CallerOk(s, i);
  }

  lemma ExtendsTransitive(s: State, t: State, u: State)
    requires Extends(s, t) && Extends(t, u)
    ensures Extends(s, u)
  {
  }

  lemma {:induction false} TraceKeeps(tr: seq<State>, s: State, s': State)
    requires Trace(tr, s, s') && Inv(s)
    ensures Inv(s') && Extends(s, s')
    decreases |tr|
  {
    hide Inv, Extends, Next;
    if |tr| == 1 {
      SelfExtends(s);
    } else {
      var init := tr[..|tr| - 1];
      var t := tr[|tr| - 2];
      assert Trace(init, s, t);
      TraceKeeps(init, s, t);
      assert Next(tr[|tr| - 2], tr[|tr| - 2 + 1]);
      NextKeeps(t, s');
      ExtendsTransitive(s, t, s');
    }
  }

  lemma SelfExtends(s: State)
    ensures Extends(s, s)
  {
  }

  lemma NextKeeps(t: State, s': State)
    requires Inv(t) && Next(t, s')
    ensures Inv(s') && Extends(t, s')
  {
    hide Inv, Extends, Apply, Enabled;
    var i, a :| Enabled(t, i, a) && s' == Apply(t, i, a);
    StepKeepsInv(t, i, a);
    StepExtends(t, i, a);
  }

  /** Every reachable state satisfies the invariant. */
  lemma ReachableInv(s: State)
    requires Reaches(Init, s)
    ensures Inv(s)
  {
    hide Inv, Extends, Trace;
    InitInv();
    var tr :| Trace(tr, Init, s);
    TraceKeeps(tr, Init, s);
  }

  /** Along every run, commits, ledger rows and answers only accumulate. */
  lemma RunsExtend(s: State, s': State)
    requires Reaches(Init, s) && Reaches(s, s')
    ensures Inv(s') && Extends(s, s')
  {
    hide Inv, Extends, Trace;
    ReachableInv(s);
    var tr :| Trace(tr, s, s');
    TraceKeeps(tr, s, s');
  }

  lemma OneStepReaches(s: State, i: nat, a: Action)
    requires Enabled(s, i, a)
    ensures Reaches(s, Apply(s, i, a))
  {
    hide Apply, Enabled;
    var s' := Apply(s, i, a);
    assert Next(s, s');
    assert Trace([s, s'], s, s');
  }

  lemma StayReaches(s: State)
    ensures Reaches(s, s)
  {
    assert Trace([s], s, s);
  }

  lemma ReachesTransitive(s: State, t: State, u: State)
    requires Reaches(s, t) && Reaches(t, u)
    ensures Reaches(s, u)
  {
    hide Next;
    var a :| Trace(a, s, t);
    var b :| Trace(b, t, u);
    var ab := a + b[1..];
    forall k | 0 <= k < |ab| - 1 ensures Next(ab[k], ab[k + 1]) {
      if k >= |a| - 1 { assert Next(b[k - (|a| - 1)], b[k - (|a| - 1) + 1]); }
    }
    assert Trace(ab, s, u);
  }

  // ------------------------------------------------------------------ exactly once

  /** The effects in the database are those of the stored input, once, in order,
      and the stored result is their row counts. */
  ghost predicate Recorded(row: Row, effects: seq<Effect>) {
    row.status == 1
    && Fingerprint(row.input) == Some(row.fingerprint)
    && Decode(row.input).Some?
    && Follows(effects, Requests(Decode(row.input).value, row.scope.schema))
    && |effects| == |Requests(Decode(row.input).value, row.scope.schema)|
    && row.result == Some(SummaryDoc(1, CountsOf(effects)))
  }

  lemma StoredPlan(c: Command, schema: string)
    requires Accepts(c)
    ensures Decode(Canonical(c)).Some? && Requests(Decode(Canonical(c)).value, schema) == Requests(c, schema)
  {
    hide Canonical, Decode, StepsOk, BudgetUpTo, NodesUpTo, Json.TextLength, HeaderOk, Requests;
    CommandRoundTrip.DecodeUndoesCanonical(c);
    CommandRoundTrip.PlaceholderIsAnId();
    CommandRoundTrip.AcceptanceIgnoresId(c, PLACEHOLDER_ID);
    CommandRoundTrip.SameDocumentSameRequests(c, c.(id := PLACEHOLDER_ID), schema);
  }

  lemma CommitsAreRecorded(s: State, a: nat)
    requires Inv(s) && a < |s.log|
    ensures s.log[a].key in s.rows && s.rows[s.log[a].key].scope == s.log[a].key.scope
    ensures Recorded(s.rows[s.log[a].key], s.log[a].effects)
  {
    hide TxOk, CallerOk, KeysOk, Accepts, Follows, Json.TextLength, SummaryDoc, Canonical, RequestsUpTo, DocVersion,
         CountsOf, ScopeDoc, Decode, Fingerprint;
    assert CommitOk(s, a);
    var c := s.callers[s.log[a].caller];
    CommandRoundTrip.AcceptedDocumentsFingerprint(c.command);
    StoredPlan(c.command, c.scope.schema);
  }

  /** Exactly once: one commit a key at most; a ledger row exists if and only if a
      commit with that key does; and that commit carries exactly the stored input. */
  lemma ExactlyOnce(s: State)
    requires Reaches(Init, s)
    ensures forall a, b :: 0 <= a < |s.log| && 0 <= b < |s.log| && s.log[a].key == s.log[b].key ==> a == b
    ensures forall k :: k in s.rows <==> exists a :: 0 <= a < |s.log| && s.log[a].key == k
    ensures forall a :: 0 <= a < |s.log| ==> s.log[a].key in s.rows && Recorded(s.rows[s.log[a].key], s.log[a].effects)
  {
    hide Recorded, TxOk, CallerOk, CommitOk;
    ReachableInv(s);
    forall a | 0 <= a < |s.log| ensures s.log[a].key in s.rows && Recorded(s.rows[s.log[a].key], s.log[a].effects) {
      CommitsAreRecorded(s, a);
    }
  }

  /** No committed row is pending. */
  lemma NoPendingRow(s: State, k: Key)
    requires Reaches(Init, s) && k in s.rows
    ensures s.rows[k].status == 1
  {
    hide Follows, Fingerprint, Decode, Requests, SummaryDoc, Reaches;
    ExactlyOnce(s);
    var a :| 0 <= a < |s.log| && s.log[a].key == k;
    assert Recorded(s.rows[s.log[a].key], s.log[a].effects);
  }

  // -------------------------------------------------------------- replay agreement

  ghost predicate Succeeded(s: State, i: nat) {
    i in s.callers && s.callers[i].pc.Done? && s.callers[i].pc.outcome.Success?
  }

  /** A success names the one commit of its key: same input, same counts, and
      applied exactly when this caller made it. */
  lemma SuccessMeansCommitted(s: State, i: nat) returns (a: nat)
    requires Inv(s) && Succeeded(s, i)
    ensures a < |s.log| && s.log[a].key == KeyOf(s.callers[i])
    ensures s.log[a].caller in s.callers && InputOf(s.callers[s.log[a].caller]) == InputOf(s.callers[i])
    ensures s.callers[i].pc.outcome.counts == CountsOf(s.log[a].effects)
    ensures s.callers[i].pc.outcome.applied <==> s.log[a].caller == i
  {
    hide TxOk, Accepts, Follows, Json.TextLength, SummaryDoc, Canonical, Requests, DocVersion, CountsOf, ScopeDoc;
    assert CallerOk(s, i);
    var c := s.callers[i];
    a :| 0 <= a < |s.log| && s.log[a].key == KeyOf(c);
    assert CommitOk(s, a);
    SameSummary(c.pc.outcome.counts, CountsOf(s.log[a].effects));
    if CommittedBy(s, i) {
      var b :| 0 <= b < |s.log| && s.log[b].caller == i;
      assert CommitOk(s, b);
    }
  }

  lemma SameSummary(a: seq<int>, b: seq<int>)
    requires SummaryDoc(1, a) == SummaryDoc(1, b)
    ensures a == b
  {
    SummaryRoundTrip(a);
    SummaryRoundTrip(b);
  }

  /** Replay agreement, within a state and across any later state: two successes for
      one (scope, ID) carry one input and one result, and at most one was applied. */
  lemma ReplayAgreement(s: State, s': State, i: nat, j: nat)
    requires Reaches(Init, s) && Reaches(s, s')
    requires Succeeded(s, i) && Succeeded(s', j) && KeyOf(s.callers[i]) == KeyOf(s'.callers[j])
    ensures InputOf(s.callers[i]) == InputOf(s'.callers[j])
    ensures s.callers[i].pc.outcome.counts == s'.callers[j].pc.outcome.counts
    ensures s.callers[i].pc.outcome.applied && s'.callers[j].pc.outcome.applied ==> i == j
  {
    hide TxOk, CallerOk, CommitOk, Canonical, Reaches;
    RunsExtend(s, s');
    var a := SuccessMeansCommitted(s', i);
    var b := SuccessMeansCommitted(s', j);
  }

  /** Once a commit exists, a caller with another canonical input never succeeds. */
  lemma OtherInputNeverSucceeds(s: State, s': State, a: nat, j: nat)
    requires Reaches(Init, s) && Reaches(s, s') && a < |s.log|
    requires Succeeded(s', j) && KeyOf(s'.callers[j]) == s.log[a].key
    ensures s.log[a].key in s.rows && s.rows[s.log[a].key].input == InputOf(s'.callers[j])
  {
    hide TxOk, CallerOk, Canonical, Reaches, Follows, Accepts, SummaryDoc, CountsOf, DocVersion, Requests;
    RunsExtend(s, s');
    var b := SuccessMeansCommitted(s', j);
    assert s'.log[a].key == s'.log[b].key;
    assert CommitOk(s', b);
    ReachableInv(s);
    assert CommitOk(s, a);
  }

  /** A definite failure means this caller's work is not, and never will be, committed. */
  lemma DefiniteFailureCommitsNothing(s: State, s': State, i: nat)
    requires Reaches(Init, s) && Reaches(s, s') && i in s.callers && s.callers[i].pc.Done?
    requires s.callers[i].pc.outcome.Failure? || s.callers[i].pc.outcome.Conflict? || s.callers[i].pc.outcome.Corrupt?
    ensures i !in s'.txs && forall a :: 0 <= a < |s'.log| ==> s'.log[a].caller != i
  {
    hide TxOk, CommitOk, Canonical, Reaches, Accepts, Finished, ScopeDoc, Json.TextLength;
    RunsExtend(s, s');
    assert CallerOk(s', i);
  }

  /** The lookup never calls a row of this protocol corrupt: it replays the stored
      result when the input is the stored one, and reports a conflict otherwise. */
  lemma LookupDecides(s: State, i: nat)
    requires Reaches(Init, s) && i in s.callers && (s.callers[i].pc.Lookup? || s.callers[i].pc.Reread?)
    requires KeyOf(s.callers[i]) in s.rows
    ensures var c := s.callers[i];
            var row := s.rows[KeyOf(c)];
            ReadRow(c, row).Success? <==> row.input == InputOf(c)
    ensures !ReadRow(s.callers[i], s.rows[KeyOf(s.callers[i])]).Success?
            ==> ReadRow(s.callers[i], s.rows[KeyOf(s.callers[i])]) == Conflict
  {
    hide TxOk, Accepts, Follows, Json.TextLength, SummaryDoc, Canonical, Requests, DocVersion, CountsOf, ScopeDoc,
         ReadRow, Reaches;
    ReachableInv(s);
    var c := s.callers[i];
    assert CallerOk(s, i);
    var a :| 0 <= a < |s.log| && s.log[a].key == KeyOf(c);
    assert CommitOk(s, a);
    ReadIsExact(c, s.callers[s.log[a].caller], s.log[a].effects);
  }
}
