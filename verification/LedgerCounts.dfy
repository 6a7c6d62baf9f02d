/** What a command's own options say about the rows its statements may hit, and what a
    fetched ledger row must be to count as this command's. */
module LedgerCounts {
  import opened Text
  import Json
  import opened CommandInput
  import CommandRoundTrip
  import opened LedgerMachine
  import opened LedgerProof
  import opened LedgerTheorems
  import LedgerProgress

  // ------------------------------------------------------------- planned statements

  /** The names in byte order, each once. */
  predicate NamesInOrder(names: seq<string>, m: map<string, Scalar>) {
    && (forall i, j :: 0 <= i < j < |names| ==> Less(names[i], names[j]))
    && (forall x :: x in names ==> x in m) && (forall x :: x in m ==> x in names)
  }

  /** The statement a business step stands for. */
  predicate PlansStep(r: Request, s: Step, schema: string) {
    && r.operation == s.operation && r.table == schema + "." + s.table && r.values == s.values
    && NamesInOrder(r.columns, s.values) && NamesInOrder(r.whereColumns, s.keys)
    && |r.whereValues| == |r.whereColumns|
    && (forall i :: 0 <= i < |r.whereColumns| ==>
          r.whereColumns[i] in s.keys && r.whereValues[i] == s.keys[r.whereColumns[i]])
    && r.expected == s.expectAffected && r.version == s.version
  }

  /** A hook is an insert that must hit exactly one row. */
  predicate PlansHook(r: Request, h: Hook, schema: string) {
    && r.operation == "insert" && r.table == schema + "." + h.table && r.values == h.values
    && NamesInOrder(r.columns, h.values) && r.whereColumns == [] && r.whereValues == []
    && r.expected == Some(1) && r.version == None
  }

  lemma {:induction false} ValuesAtMeans(m: map<string, Scalar>, names: seq<string>)
    requires forall i :: 0 <= i < |names| ==> names[i] in m
    ensures |ValuesAt(m, names)| == |names|
    ensures forall i :: 0 <= i < |names| ==> ValuesAt(m, names)[i] == m[names[i]]
  {
    if names != [] { ValuesAtMeans(m, names[..|names| - 1]); }
  }

  lemma NamesSorted(m: map<string, Scalar>)
    ensures NamesInOrder(SortedNames(m.Keys), m)
  {
    hide Less;
    var names := SortedNames(m.Keys);
    assert SortedBy(names, Self);
    forall i, j | 0 <= i < j < |names| ensures Less(names[i], names[j]) {
      assert Less(Self(names[i]), Self(names[j]));
    }
  }

  lemma RequestPlans(s: Step, schema: string)
    ensures PlansStep(RequestOf(s, schema), s, schema)
  {
    hide NamesInOrder;
    NamesSorted(s.values);
    NamesSorted(s.keys);
    var names := SortedNames(s.keys.Keys);
    forall i | 0 <= i < |names| ensures names[i] in s.keys { assert names[i] in names; }
    ValuesAtMeans(s.keys, names);
  }

  /** Every statement of a command is the one its step or hook asks for, keys and all. */
  lemma PlanMeans(c: Command, schema: string)
    ensures |Requests(c, schema)| == |c.steps| + |c.hooks|
    ensures forall k :: 0 <= k < |c.steps| ==> PlansStep(Requests(c, schema)[k], c.steps[k], schema)
    ensures forall k :: 0 <= k < |c.hooks| ==> PlansHook(Requests(c, schema)[|c.steps| + k], c.hooks[k], schema)
  {
    hide PlansStep, PlansHook, RequestOf, RequestsUpTo;
    LedgerProgress.RequestCount(c, schema, |AllSteps(c)|);
    forall k | 0 <= k < |c.steps| ensures PlansStep(Requests(c, schema)[k], c.steps[k], schema) {
      LedgerProgress.RequestAt(c, schema, |AllSteps(c)|, k);
      RequestPlans(c.steps[k], schema);
    }
    forall k | 0 <= k < |c.hooks| ensures PlansHook(Requests(c, schema)[|c.steps| + k], c.hooks[k], schema) {
      LedgerProgress.RequestAt(c, schema, |AllSteps(c)|, |c.steps| + k);
      HookStepsAt(c.hooks, k);
      HookPlans(c.hooks[k], schema);
    }
  }

  lemma HookPlans(h: Hook, schema: string)
    ensures PlansHook(RequestOf(HookStep(h), schema), h, schema)
  {
    hide NamesInOrder;
    RequestPlans(HookStep(h), schema);
    var r := RequestOf(HookStep(h), schema);
    assert r.whereColumns == [] by { NoNames(r.whereColumns); }
  }

  lemma NoNames(names: seq<string>)
    ensures NamesInOrder(names, map[]) ==> names == []
  {
    hide Less;
    assert |names| > 0 ==> names[0] in names;
  }

  // -------------------------------------------------------------------- row counts

  /** What a step's own options allow. */
  predicate StepCount(s: Step, n: int) {
    n >= 0 && (s.version.Some? ==> n == 1) && (s.expectAffected.Some? ==> n == s.expectAffected.value)
  }

  /** What the statement number k of a command may report. */
  predicate CountAllowed(c: Command, k: nat, n: int) {
    if k < |c.steps| then StepCount(c.steps[k], n) else n == 1
  }

  predicate CountsAllowed(c: Command, counts: seq<int>) {
    |counts| == |c.steps| + |c.hooks| && forall k :: 0 <= k < |counts| ==> CountAllowed(c, k, counts[k])
  }

  /** The expectation of a planned statement is exactly that of its step or hook. */
  lemma ExpectationMeans(c: Command, schema: string, k: nat, n: int)
    requires k < |c.steps| + |c.hooks|
    ensures k < |Requests(c, schema)| && (ExpectationMet(Requests(c, schema)[k], n) <==> CountAllowed(c, k, n))
  {
    hide NamesInOrder, Requests;
    PlanMeans(c, schema);
    if k >= |c.steps| {
      assert PlansHook(Requests(c, schema)[|c.steps| + (k - |c.steps|)], c.hooks[k - |c.steps|], schema);
    }
  }

  lemma FollowedCounts(c: Command, schema: string, effects: seq<Effect>)
    requires Follows(effects, Requests(c, schema)) && |effects| == |Requests(c, schema)|
    ensures CountsAllowed(c, CountsOf(effects))
  {
    hide Requests, ExpectationMet, CountAllowed;
    PlanMeans(c, schema);
    CountsLength(effects);
    forall k | 0 <= k < |effects| ensures CountAllowed(c, k, CountsOf(effects)[k]) {
      CountsAt(effects, k);
      ExpectationMeans(c, schema, k, effects[k].count);
    }
  }

  /** Every commit of a reachable state hit the rows its own command's options allow: one
      for a versioned step or a hook, the expected number where one is given. */
  lemma CommitsMeetOptions(s: State, a: nat)
    requires Reaches(Init, s) && a < |s.log|
    ensures s.log[a].caller in s.callers
    ensures CountsAllowed(s.callers[s.log[a].caller].command, CountsOf(s.log[a].effects))
  {
    hide Reaches, TxOk, CallerOk, KeysOk, Accepts, Follows, Json.TextLength, SummaryDoc, Canonical, Requests,
         ScopeDoc, CountsOf, CountsAllowed;
    ReachableInv(s);
    assert CommitOk(s, a);
    var c := s.callers[s.log[a].caller];
    FollowedCounts(c.command, c.scope.schema, s.log[a].effects);
  }

  /** And the counts a success reports, fresh or replayed, are such counts. */
  lemma SuccessMeetsOptions(s: State, i: nat)
    requires Inv(s) && Succeeded(s, i)
    ensures CountsAllowed(s.callers[i].command, s.callers[i].pc.outcome.counts)
  {
    hide TxOk, KeysOk, Accepts, Follows, Json.TextLength, SummaryDoc, Canonical, Requests, ScopeDoc, CountsOf;
    assert CallerOk(s, i);
    var a := SuccessMeansCommitted(s, i);
    assert CommitOk(s, a);
    var c := s.callers[s.log[a].caller];
    FollowedCounts(c.command, c.scope.schema, s.log[a].effects);
    CommandRoundTrip.SameDocumentSameCommand(c.command, s.callers[i].command);
    SameOptions(c.command, s.callers[i].command, CountsOf(s.log[a].effects));
  }

  lemma SameOptions(c: Command, d: Command, counts: seq<int>)
    requires c.(id := d.id) == d && CountsAllowed(c, counts)
    ensures CountsAllowed(d, counts)
  {
    assert c.steps == d.steps && c.hooks == d.hooks;
  }

  /** A statement moves on exactly when its count is one its options allow; it then adds
      that effect, and otherwise only the rollback is left. */
  lemma StatementMovesOn(s: State, i: nat, n: int)
    requires Inv(s) && Enabled(s, i, Action.Run(n))
    ensures var c := s.callers[i];
            var k, t := |c.pc.counts|, Apply(s, i, Action.Run(n));
            && k < |c.command.steps| + |c.command.hooks| && i in t.callers && i in s.txs
            && if CountAllowed(c.command, k, n) then
                 && t.callers[i].pc == (if k + 1 == |c.command.steps| + |c.command.hooks| then Save(c.pc.counts + [n])
                                        else Execute(c.pc.counts + [n]))
                 && i in t.txs && |t.txs[i].effects| == |s.txs[i].effects| + 1
                 && t.txs[i].effects[..|s.txs[i].effects|] == s.txs[i].effects
                 && t.txs[i].effects[|s.txs[i].effects|] == Effect(PlanOf(c)[k], n)
               else t.callers[i].pc == Undo(Done(if n < 0 then Corrupt else Failure)) && t.txs == s.txs
  {
    hide Inv, Requests, ExpectationMet, CountAllowed;
    var c := s.callers[i];
    PlanMeans(c.command, c.scope.schema);
    ExpectationMeans(c.command, c.scope.schema, |c.pc.counts|, n);
  }

  // ------------------------------------------------------------------ a fetched row

  /** A row the reader trusts: format, status, sizes, fingerprint. */
  ghost predicate RowSound(row: Row) {
    && row.version == 1 && row.status == 1 && row.result.Some?
    && Json.TextLength(ScopeDoc(row.scope)) <= 1048576 && Json.TextLength(row.input) <= 1048576
    && Json.TextLength(row.result.value) <= 1048576 && Fingerprint(row.input) == Some(row.fingerprint)
  }

  /** The stored result is the summary of these counts. */
  predicate Summarizes(row: Row, counts: seq<int>, steps: nat) {
    |counts| == steps && (forall k :: 0 <= k < steps ==> counts[k] >= 0) && row.result == Some(SummaryDoc(1, counts))
  }

  lemma SummaryIsRead(doc: Json.Value, counts: seq<int>)
    requires doc == SummaryDoc(1, counts)
    ensures DecodeSummary(doc) == Some(Summary(1, counts))
  {
    SummaryRoundTrip(counts);
  }

  /** For any row whatever: a sound one of this scope and input that summarizes counts of
      the right number replays them; a sound one of another scope or input is a
      conflict; everything else is corrupt. */
  lemma RowDecides(c: Caller, row: Row)
    requires Accepts(c.command)
    ensures forall counts :: ReadRow(c, row) == Success(counts, false) <==>
              RowSound(row) && row.scope == c.scope && row.input == InputOf(c) && Summarizes(row, counts, |PlanOf(c)|)
    ensures ReadRow(c, row) == Conflict <==> RowSound(row) && (row.scope != c.scope || row.input != InputOf(c))
    ensures ReadRow(c, row).Success? ==> !ReadRow(c, row).applied
    ensures ReadRow(c, row).Success? || ReadRow(c, row) == Conflict || ReadRow(c, row) == Corrupt
  {
    hide Accepts, Canonical, Json.TextLength, ScopeDoc, Requests, SummaryDoc, DecodeSummary, Fingerprint, DocVersion;
    CommandRoundTrip.AcceptedDocumentsFingerprint(c.command);
    forall counts | row.result == Some(SummaryDoc(1, counts)) ensures DecodeSummary(row.result.value)
        == Some(Summary(1, counts)) {
      SummaryIsRead(row.result.value, counts);
    }
  }
}
