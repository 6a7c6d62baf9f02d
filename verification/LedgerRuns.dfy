/** Every action keeps the ledger invariant, so every reachable state has it. */
module LedgerRuns {
  import opened Text
  import Json
  import opened CommandInput
  import opened LedgerMachine
  import opened LedgerProof

  /** Only caller i and its own transaction may differ; nothing is published. */
  ghost predicate Local(s: State, s': State, i: nat) {
    && s'.rows == s.rows && s'.log == s.log
    && s'.callers.Keys == s.callers.Keys + {i}
    && (i in s.callers ==> s'.callers[i].scope == s.callers[i].scope && s'.callers[i].command == s.callers[i].command)
    && (forall j :: j in s.callers && j != i ==> s'.callers[j] == s.callers[j])
    && (forall j :: j in s.txs && j != i ==> j in s'.txs && s'.txs[j] == s.txs[j])
    && (forall j :: j in s'.txs && j != i ==> j in s.txs)
  }

  lemma TxFrame(s: State, s': State, j: nat)
    requires j in s.txs && j in s'.txs && s.txs[j] == s'.txs[j]
    requires TxOk(s, j) && j in s'.callers
    requires s'.callers[j].scope == s.callers[j].scope && s'.callers[j].command == s.callers[j].command
    requires s.txs[j].reserved.Some? ==> KeyOf(s'.callers[j]) !in s'.rows
    ensures TxOk(s', j)
  {
    hide Accepts, Follows, Json.TextLength, SummaryDoc, Canonical, Requests, DocVersion, CountsOf;
  }

  lemma CallerFrame(s: State, s': State, j: nat)
    requires j in s.callers && j in s'.callers && s.callers[j] == s'.callers[j] && CallerOk(s, j)
    requires j in s.txs <==> j in s'.txs
    requires j in s.txs ==> s.txs[j] == s'.txs[j]
    requires KeyOf(s.callers[j]) in s.rows
             ==> KeyOf(s.callers[j]) in s'.rows && s'.rows[KeyOf(s.callers[j])] == s.rows[KeyOf(s.callers[j])]
    requires CommittedBy(s, j) <==> CommittedBy(s', j)
    ensures CallerOk(s', j)
  {
    hide Accepts, Follows, Json.TextLength, SummaryDoc, Canonical, Requests, DocVersion, CountsOf, CommittedBy,
         ScopeDoc;
  }

  lemma CommitFrame(s: State, s': State, a: nat)
    requires a < |s.log| && a < |s'.log| && s.log[a] == s'.log[a] && CommitOk(s, a)
    requires forall j :: j in s.callers ==>
               && j in s'.callers && s'.callers[j].scope == s.callers[j].scope
               && s'.callers[j].command == s.callers[j].command
    requires forall k :: k in s.rows ==> k in s'.rows && s'.rows[k] == s.rows[k]
    ensures CommitOk(s', a)
  {
    hide Accepts, Follows, Json.TextLength, SummaryDoc, Canonical, Requests, DocVersion, CountsOf, ScopeDoc;
  }

  /** A reservation is new only when its key is free. */
  ghost predicate ReservesFreely(s: State, s': State, i: nat) {
    i in s'.txs && s'.txs[i].reserved.Some? ==>
      i in s'.callers && ((i in s.callers && i in s.txs && s.txs[i].reserved.Some?)
          || KeyFree(s, i, KeyOf(s'.callers[i])))
  }

  lemma LocalKeys(s: State, s': State, i: nat)
    requires Local(s, s', i) && KeysOk(s) && TxsOk(s) && ReservesFreely(s, s', i)
    ensures KeysOk(s')
  {
    hide TxOk, CommittedBy;
    forall j, j', k | Reserving(s', j, k) && Reserving(s', j', k) ensures j == j' {
      if j != i { assert Reserving(s, j, k); }
      if j' != i { assert Reserving(s, j', k); }
      if (j == i || j' == i) && i in s.txs && i in s.callers && s.txs[i].reserved.Some? { assert Reserving(s, i, k); }
    }
  }

  lemma LocalStep(s: State, s': State, i: nat)
    requires Inv(s) && Local(s, s', i) && ReservesFreely(s, s', i)
    requires i in s'.txs ==> TxOk(s', i)
    requires CallerOk(s', i)
    ensures Inv(s')
  {
    hide TxOk, CallerOk, CommitOk, Accepts, ReservesFreely, KeysOk;
    LocalKeys(s, s', i);
    forall j | j in s'.txs ensures TxOk(s', j) {
      if j != i { TxStays(s, s', i, j); }
    }
    forall j | j in s'.callers ensures CallerOk(s', j) {
      if j != i {
        assert CommittedBy(s, j) <==> CommittedBy(s', j);
        CallerFrame(s, s', j);
      }
    }
    forall a | 0 <= a < |s'.log| ensures CommitOk(s', a) { CommitFrame(s, s', a); }
  }

  lemma TxStays(s: State, s': State, i: nat, j: nat)
    requires Local(s, s', i) && j != i && j in s'.txs && j in s.txs && TxOk(s, j)
    ensures TxOk(s', j)
  {
    hide Accepts, Follows, Json.TextLength, SummaryDoc, Canonical, Requests, DocVersion, CountsOf;
    TxFrame(s, s', j);
  }

  // ---------------------------------------------------------------- publishing

  /** Transaction i holds a finished row for its caller. */
  ghost predicate Ready(s: State, i: nat) {
    i in s.txs && i in s.callers && s.txs[i].reserved == Some(Finished(s.callers[i], CountsOf(s.txs[i].effects)))
  }

  lemma PublishedCommit(s: State, s': State, i: nat, pc: PC)
    requires TxsOk(s) && CallersOk(s) && Ready(s, i) && s' == SetPC(Publish(s, i), i, pc)
    ensures CommitOk(s', |s.log|)
  {
    hide Accepts, Follows, Json.TextLength, SummaryDoc, Canonical, Requests, DocVersion, CountsOf, ScopeDoc;
    assert TxOk(s, i) && CallerOk(s, i);
  }

  lemma PublishedTx(s: State, s': State, i: nat, pc: PC, j: nat)
    requires TxsOk(s) && KeysOk(s) && Ready(s, i) && s' == SetPC(Publish(s, i), i, pc) && j in s'.txs
    ensures TxOk(s', j)
  {
    hide Accepts, Follows, Json.TextLength, SummaryDoc, Canonical, Requests, DocVersion, CountsOf, ScopeDoc,
         CommittedBy, Reservation, Finished;
    assert j != i && TxOk(s, j);
    assert Reserving(s, i, KeyOf(s.callers[i]));
    assert s.txs[j].reserved.Some? ==> Reserving(s, j, KeyOf(s.callers[j]));
    TxFrame(s, s', j);
  }

  lemma PublishedCallers(s: State, s': State, i: nat, pc: PC, j: nat)
    requires TxsOk(s) && CallersOk(s) && Ready(s, i) && s' == SetPC(Publish(s, i), i, pc) && j in s'.callers && j != i
    ensures CallerOk(s', j)
  {
    hide Accepts, Follows, Json.TextLength, SummaryDoc, Canonical, Requests, DocVersion, CountsOf, ScopeDoc,
         Reservation, Finished, CallerOk;
    assert TxOk(s, i);
    assert CommittedBy(s, j) <==> CommittedBy(s', j) by {
      if CommittedBy(s, j) {
        var a :| 0 <= a < |s.log| && s.log[a].caller == j;
        assert s'.log[a].caller == j;
      }
    }
    CallerFrame(s, s', j);
  }

  lemma PublishedKeys(s: State, s': State, i: nat, pc: PC)
    requires TxsOk(s) && CommitsOk(s) && KeysOk(s) && Ready(s, i) && s' == SetPC(Publish(s, i), i, pc)
    ensures KeysOk(s')
  {
    hide Accepts, Follows, Json.TextLength, SummaryDoc, Canonical, Requests, DocVersion, CountsOf, ScopeDoc,
         CommittedBy, Reservation, Finished;
    var n, key := |s.log|, KeyOf(s.callers[i]);
    assert TxOk(s, i);
    forall j, j', k | Reserving(s', j, k) && Reserving(s', j', k) ensures j == j' {
      assert Reserving(s, j, k) && Reserving(s, j', k);
    }
    forall a | 0 <= a < n ensures s.log[a].key != key { assert CommitOk(s, a); }
    forall k | k in s'.rows ensures exists a :: 0 <= a < |s'.log| && s'.log[a].key == k {
      if k == key { assert s'.log[n].key == k; }
      else {
        assert k in s.rows;
        var a :| 0 <= a < n && s.log[a].key == k;
        assert s'.log[a].key == k;
      }
    }
  }

  lemma PublishStep(s: State, s': State, i: nat, pc: PC)
    requires Inv(s) && Ready(s, i) && s' == SetPC(Publish(s, i), i, pc)
    requires pc == Done(Unknown) || pc == Done(Crashed) || pc == Done(Success(CountsOf(s.txs[i].effects), true))
    ensures Inv(s')
  {
    hide TxOk, CallerOk, CommitOk, KeysOk, Publish;
    PublishedKeys(s, s', i, pc);
    PublishedCommit(s, s', i, pc);
    forall j | j in s'.txs ensures TxOk(s', j) { PublishedTx(s, s', i, pc, j); }
    forall j | j in s'.callers ensures CallerOk(s', j) {
      if j != i { PublishedCallers(s, s', i, pc, j); } else { PublishedSelf(s, s', i, pc); }
    }
    forall a | 0 <= a < |s'.log| ensures CommitOk(s', a) { PublishedLog(s, s', i, pc, a); }
  }

  lemma PublishedLog(s: State, s': State, i: nat, pc: PC, a: nat)
    requires Inv(s) && Ready(s, i) && s' == SetPC(Publish(s, i), i, pc) && a < |s'.log|
    ensures CommitOk(s', a)
  {
    hide Accepts, Follows, Json.TextLength, SummaryDoc, Canonical, Requests, DocVersion, CountsOf, ScopeDoc,
         Reservation, Finished, CallerOk, CommittedBy, KeysOk;
    PublishedCommit(s, s', i, pc);
    if a < |s.log| {
      assert TxOk(s, i) && CommitOk(s, a);
      assert KeyOf(s.callers[i]) !in s.rows;
      CommitFrame(s, s', a);
    }
  }

  lemma PublishedSelf(s: State, s': State, i: nat, pc: PC)
    requires TxsOk(s) && CallersOk(s) && Ready(s, i) && s' == SetPC(Publish(s, i), i, pc)
    requires pc == Done(Unknown) || pc == Done(Crashed) || pc == Done(Success(CountsOf(s.txs[i].effects), true))
    ensures CallerOk(s', i)
  {
    hide Accepts, Follows, Json.TextLength, SummaryDoc, Canonical, Requests, DocVersion, CountsOf, ScopeDoc;
    assert TxOk(s, i) && CallerOk(s, i);
    assert s'.log[|s.log|].caller == i;
    assert CommittedBy(s', i);
  }
}
