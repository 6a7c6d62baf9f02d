/** The ledger protocol's invariant, kept by every action of every caller, and what
    it gives: exactly-once effects and replay agreement over all interleavings. */
module LedgerProof {
  import opened Text
  import Json
  import opened CommandInput
  import CommandRoundTrip
  import opened LedgerMachine

  // ------------------------------------------------------------------- invariant

  /** The effects so far are the first planned statements, each meeting its expectation. */
  ghost predicate Follows(effects: seq<Effect>, plan: seq<Request>) {
    |effects| <= |plan|
    && forall k :: 0 <= k < |effects| ==> effects[k].request == plan[k] && ExpectationMet(plan[k], effects[k].count)
  }

  /** The row a completed command leaves behind. */
  ghost function Finished(c: Caller, counts: seq<int>): Row {
    Reservation(c).(status := 1, result := Some(SummaryDoc(1, counts)))
  }

  ghost predicate TxOk(s: State, i: nat)
    requires i in s.txs
  {
    i in s.callers &&
    var c, tx := s.callers[i], s.txs[i];
    && Accepts(c.command)
    && (tx.reserved.None? ==> tx.effects == [])
    && (tx.reserved.Some? ==>
          && KeyOf(c) !in s.rows
          && Follows(tx.effects, PlanOf(c))
          && (tx.reserved.value == Reservation(c)
              || (tx.reserved.value == Finished(c, CountsOf(tx.effects)) && |tx.effects| == |PlanOf(c)|
                  && Json.TextLength(SummaryDoc(1, CountsOf(tx.effects))) <= MAX_BYTES)))
  }

  ghost predicate CommittedBy(s: State, i: nat) { exists a :: 0 <= a < |s.log| && s.log[a].caller == i }

  /** What the program counter of caller i says about the database. */
  ghost predicate CallerOk(s: State, i: nat)
    requires i in s.callers
  {
    var c := s.callers[i];
    var open := i in s.txs;
    && Json.TextLength(ScopeDoc(c.scope)) <= MAX_BYTES
    && (!c.pc.Start? && !c.pc.Done? ==> Accepts(c.command))
    && (!c.pc.Done? ==> !CommittedBy(s, i))
    && match c.pc
       case Start => !open
       case Lookup => !open
       case Begin => !open
       case Reread => !open
       case Reserve => open ==> s.txs[i].reserved.None?
       case Execute(counts) =>
         |counts| < |PlanOf(c)|
             && (open ==> s.txs[i].reserved == Some(Reservation(c)) && CountsOf(s.txs[i].effects) == counts)
       case Save(counts) =>
         |counts| == |PlanOf(c)|
             && (open ==> s.txs[i].reserved == Some(Reservation(c)) && CountsOf(s.txs[i].effects) == counts)
       case Commit(counts) =>
         open ==> s.txs[i].reserved == Some(Finished(c, counts)) && CountsOf(s.txs[i].effects) == counts
       case Undo(cause) => cause == Reread || cause == Done(Failure) || cause == Done(Corrupt)
       case Done(outcome) =>
         match outcome
         case Success(counts, applied) =>
           && !open && Accepts(c.command)
           && KeyOf(c) in s.rows && s.rows[KeyOf(c)] == Finished(c, counts)
           && (applied <==> CommittedBy(s, i))
         case Unknown => true
         case Crashed => true
         case _ => !open && !CommittedBy(s, i)
  }

  /** One committed transaction and the ledger row it published. */
  ghost predicate CommitOk(s: State, a: nat)
    requires a < |s.log|
  {
    var e := s.log[a];
    e.caller in s.callers &&
    var c := s.callers[e.caller];
    && e.key == KeyOf(c) && Accepts(c.command)
    && Json.TextLength(ScopeDoc(c.scope)) <= MAX_BYTES
    && e.key in s.rows && s.rows[e.key] == Finished(c, CountsOf(e.effects))
    && Json.TextLength(SummaryDoc(1, CountsOf(e.effects))) <= MAX_BYTES
    && Follows(e.effects, PlanOf(c)) && |e.effects| == |PlanOf(c)|
  }

  ghost predicate TxsOk(s: State) { forall i :: i in s.txs ==> TxOk(s, i) }

  ghost predicate CallersOk(s: State) { forall i :: i in s.callers ==> CallerOk(s, i) }

  ghost predicate CommitsOk(s: State) { forall a :: 0 <= a < |s.log| ==> CommitOk(s, a) }

  predicate Reserving(s: State, i: nat, k: Key) {
    i in s.txs && i in s.callers && s.txs[i].reserved.Some? && KeyOf(s.callers[i]) == k
  }

  /** The unique key at work: one open reservation, one commit, one row for each key. */
  ghost predicate KeysOk(s: State) {
    && (forall i, j, k :: Reserving(s, i, k) && Reserving(s, j, k) ==> i == j)
    && (forall a, b :: 0 <= a < b < |s.log| ==> s.log[a].key != s.log[b].key)
    && (forall k :: k in s.rows ==> exists a :: 0 <= a < |s.log| && s.log[a].key == k)
  }

  ghost predicate Inv(s: State) { TxsOk(s) && CallersOk(s) && CommitsOk(s) && KeysOk(s) }

  // --------------------------------------------------------- reading a stored row

  lemma {:induction false} DecodeSummaryItems(counts: seq<int>)
    ensures DecodeItems(SummaryItems(counts)) == Some(counts)
  {
    if counts != [] {
      var init := counts[..|counts| - 1];
      DecodeSummaryItems(init);
      assert SummaryItems(counts)[..|SummaryItems(init)|] == SummaryItems(init);
      assert counts == init + [counts[|counts| - 1]];
    }
  }

  lemma SummaryRoundTrip(counts: seq<int>)
    ensures DecodeSummary(SummaryDoc(1, counts)) == Some(Summary(1, counts))
  {
    var ms := SummaryDoc(1, counts).members;
    Json.LookupFinds(ms, 0);
    Json.LookupFinds(ms, 1);
    DecodeSummaryItems(counts);
  }

  lemma {:induction false} CountsAt(effects: seq<Effect>, k: nat)
    requires k < |effects|
    ensures |CountsOf(effects)| == |effects| && CountsOf(effects)[k] == effects[k].count
  {
    if k < |effects| - 1 { CountsAt(effects[..|effects| - 1], k); }
    else if k > 0 { CountsAt(effects[..|effects| - 1], 0); }
  }

  lemma CountsLength(effects: seq<Effect>)
    ensures |CountsOf(effects)| == |effects|
  {
    if effects != [] { CountsAt(effects, 0); }
  }

  lemma CountsNonNegative(effects: seq<Effect>, plan: seq<Request>)
    requires Follows(effects, plan)
    ensures |CountsOf(effects)| == |effects|
    ensures forall k :: 0 <= k < |effects| ==> CountsOf(effects)[k] >= 0
  {
    CountsLength(effects);
    forall k | 0 <= k < |effects| ensures CountsOf(effects)[k] >= 0 { CountsAt(effects, k); }
  }

  /** On a row written by this protocol the reader either replays it or reports a
      conflict, never corruption; which one depends on the input alone. */
  lemma ReadIsExact(c: Caller, w: Caller, effects: seq<Effect>)
    requires Accepts(c.command) && Accepts(w.command) && KeyOf(c) == KeyOf(w)
    requires Json.TextLength(ScopeDoc(w.scope)) <= MAX_BYTES
    requires Follows(effects, PlanOf(w)) && |effects| == |PlanOf(w)|
    requires Json.TextLength(SummaryDoc(1, CountsOf(effects))) <= MAX_BYTES
    ensures ReadRow(c, Finished(w, CountsOf(effects)))
         == if InputOf(c) == InputOf(w) then Success(CountsOf(effects), false) else Conflict
    ensures InputOf(c) == InputOf(w) ==> Finished(c, CountsOf(effects)) == Finished(w, CountsOf(effects))
  {
    hide Canonical, Json.TextLength, RequestsUpTo, SummaryDoc, DecodeSummary, StepsOk, BudgetUpTo, NodesUpTo,
         HeaderOk, Decode, ScopeDoc, Fingerprint;
    CommandRoundTrip.AcceptedDocumentsFingerprint(w.command);
    SummaryRoundTrip(CountsOf(effects));
    CountsNonNegative(effects, PlanOf(w));
    AcceptedFits(w.command);
    if InputOf(c) == InputOf(w) {
      CommandRoundTrip.SameDocumentSameRequests(c.command, w.command, c.scope.schema);
      CommandRoundTrip.SameDocumentSameCommand(c.command, w.command);
      SameVersion(c.command, w.command);
    }
  }

  lemma AcceptedFits(c: Command)
    requires Accepts(c)
    ensures Json.TextLength(Canonical(c)) <= MAX_BYTES
  {
    hide Canonical, Json.TextLength, StepsOk, BudgetUpTo, NodesUpTo, HeaderOk;
  }

  lemma SameVersion(c: Command, d: Command)
    requires c.(id := d.id) == d
    ensures DocVersion(c) == DocVersion(d)
  {
    assert AllSteps(c) == AllSteps(d);
  }
}
