/** What the ledger protocol never touches, and exactly when it can succeed. */
module LedgerProgress {
  import opened Text
  import Json
  import opened CommandInput
  import opened LedgerMachine
  import opened LedgerProof
  import LedgerSteps
  import opened LedgerTheorems

  // ------------------------------------------------------- the ledger table is spared

  lemma {:induction false} RequestAt(c: Command, schema: string, n: nat, k: nat)
    requires k < n <= |AllSteps(c)|
    ensures |RequestsUpTo(c, schema, n)| == n && RequestsUpTo(c, schema, n)[k] == RequestOf(AllSteps(c)[k], schema)
  {
    hide RequestOf;
    RequestCount(c, schema, n);
    if k < n - 1 {
      RequestAt(c, schema, n - 1, k);
      RequestCount(c, schema, n - 1);
    } else { RequestCount(c, schema, n - 1); }
  }

  lemma {:induction false} RequestCount(c: Command, schema: string, n: nat)
    requires n <= |AllSteps(c)|
    ensures |RequestsUpTo(c, schema, n)| == n
  {
    hide RequestOf;
    if n > 0 { RequestCount(c, schema, n - 1); }
  }

  function LedgerName(schema: string): string { schema + "." + LEDGER_TABLE }

  /** No statement of an accepted command is on the ledger table, hooks included. */
  lemma PlansSpareLedger(c: Command, schema: string, k: nat)
    requires Accepts(c) && k < |Requests(c, schema)|
    ensures Requests(c, schema)[k].table != LedgerName(schema)
  {
    hide Canonical, BudgetUpTo, NodesUpTo, Json.TextLength, FieldsOk, HeaderOk;
    RequestCount(c, schema, |AllSteps(c)|);
    RequestAt(c, schema, |AllSteps(c)|, k);
    var step := AllSteps(c)[k];
    assert step in AllSteps(c) && StepOk(step);
    var table := schema + "." + step.table;
    assert table[|schema| + 1..] == step.table && LedgerName(schema)[|schema| + 1..] == LEDGER_TABLE;
  }

  ghost predicate Spares(effects: seq<Effect>, schema: string) {
    forall k :: 0 <= k < |effects| ==> effects[k].request.table != LedgerName(schema)
  }

  lemma FollowersSpareLedger(c: Command, schema: string, effects: seq<Effect>)
    requires Accepts(c) && Follows(effects, Requests(c, schema))
    ensures Spares(effects, schema)
  {
    hide Accepts, Requests, ExpectationMet;
    forall k | 0 <= k < |effects| ensures effects[k].request.table != LedgerName(schema) {
      PlansSpareLedger(c, schema, k);
    }
  }

  /** So ledger rows and business effects stay apart: in every reachable state neither a
      committed nor an open transaction has a business effect on the ledger table. */
  lemma EffectsSpareLedger(s: State)
    requires Reaches(Init, s)
    ensures forall a :: 0 <= a < |s.log| ==> Spares(s.log[a].effects, s.log[a].key.scope.schema)
    ensures forall i :: i in s.txs ==> i in s.callers && Spares(s.txs[i].effects, s.callers[i].scope.schema)
  {
    hide Reaches, Accepts, Requests, Follows, CallerOk, KeysOk, Json.TextLength, SummaryDoc, CountsOf, Finished,
         Reservation, Spares, ScopeDoc;
    ReachableInv(s);
    forall a | 0 <= a < |s.log| ensures Spares(s.log[a].effects, s.log[a].key.scope.schema) {
      assert CommitOk(s, a);
      var c := s.callers[s.log[a].caller];
      FollowersSpareLedger(c.command, c.scope.schema, s.log[a].effects);
    }
    forall i | i in s.txs ensures i in s.callers && Spares(s.txs[i].effects, s.callers[i].scope.schema) {
      assert TxOk(s, i);
      var c := s.callers[i];
      if s.txs[i].reserved.Some? {
        FollowersSpareLedger(c.command, c.scope.schema, s.txs[i].effects);
      } else { NothingSpares(c.scope.schema); }
    }
  }

  lemma NothingSpares(schema: string)
    ensures Spares([], schema)
  {
  }

  // ------------------------------------------------------------- counts that are right

  /** A row count that meets what the statement expects. */
  function Chosen(r: Request): int { if r.expected.Some? then r.expected.value else 1 }

  ghost function ChosenUpTo(plan: seq<Request>, n: nat): seq<int>
    requires n <= |plan|
  {
    if n == 0 then [] else ChosenUpTo(plan, n - 1) + [Chosen(plan[n - 1])]
  }

  lemma {:induction false} ChosenCount(plan: seq<Request>, n: nat)
    requires n <= |plan|
    ensures |ChosenUpTo(plan, n)| == n
  {
    hide Chosen;
    if n > 0 { ChosenCount(plan, n - 1); }
  }

  lemma ChosenMeets(c: Command, schema: string, k: nat)
    requires Accepts(c) && k < |Requests(c, schema)|
    ensures ExpectationMet(Requests(c, schema)[k], Chosen(Requests(c, schema)[k]))
    ensures 0 <= Chosen(Requests(c, schema)[k]) <= MAX_INT64
  {
    hide Canonical, BudgetUpTo, NodesUpTo, Json.TextLength, FieldsOk, HeaderOk, Ident;
    RequestCount(c, schema, |AllSteps(c)|);
    RequestAt(c, schema, |AllSteps(c)|, k);
    assert AllSteps(c)[k] in AllSteps(c) && StepOk(AllSteps(c)[k]);
  }

  lemma NineteenDigits(n: int)
    requires 0 <= n <= MAX_INT64
    ensures |FormatInt(n)| <= 19
  {
    hide FormatNat;
    assert Power10(19) == 10000000000000000000 by {
      assert Power10(5) == 100000 && Power10(10) == 10000000000 && Power10(15) == 1000000000000000;
    }
    DigitCount(n, 19);
  }

  lemma {:induction false} ChosenLength(c: Command, schema: string, n: nat)
    requires Accepts(c) && n <= |Requests(c, schema)|
    ensures |SummaryItems(ChosenUpTo(Requests(c, schema), n))| == n
    ensures Json.ItemsLength(SummaryItems(ChosenUpTo(Requests(c, schema), n))) <= 20 * n
  {
    hide Accepts, Requests, FormatInt, Chosen;
    var plan := Requests(c, schema);
    if n > 0 {
      ChosenLength(c, schema, n - 1);
      ChosenMeets(c, schema, n - 1);
      NineteenDigits(Chosen(plan[n - 1]));
      var init := ChosenUpTo(plan, n - 1);
      assert ChosenUpTo(plan, n)[..|ChosenUpTo(plan, n)| - 1] == init;
      var items := SummaryItems(ChosenUpTo(plan, n));
      assert items[..|items| - 1] == SummaryItems(init);
    }
  }

  lemma SummaryLength(counts: seq<int>)
    ensures Json.TextLength(SummaryDoc(1, counts)) <= 64 + Json.ItemsLength(SummaryItems(counts))
  {
    hide Json.ItemsLength, Json.EscapedLength, SummaryItems;
    var ms := SummaryDoc(1, counts).members;
    assert Json.QuotedLength("version") == 9 by { ShortName("version"); }
    assert Json.QuotedLength("rows_affected") == 15 by { ShortName("rows_affected"); }
    assert Json.TextLength(Json.Int(1)) == 1 by { assert FormatInt(1) == FormatNat(1) == [DigitChar(1)]; }
    var items := SummaryItems(counts);
    assert Json.TextLength(Json.Arr(items)) == 2 + Json.ItemsLength(items);
    FirstMember(ms[..1]);
    SecondMember(ms);
    assert Json.TextLength(SummaryDoc(1, counts)) == 2 + Json.MembersLength(ms);
  }

  lemma SecondMember(ms: seq<Json.Member>)
    requires |ms| == 2
    ensures Json.MembersLength(ms)
            == Json.MembersLength(ms[..1]) + 1 + Json.QuotedLength(ms[1].name) + 1 + Json.TextLength(ms[1].value)
  {
    hide Json.QuotedLength, Json.TextLength;
  }

  lemma FirstMember(ms: seq<Json.Member>)
    requires |ms| == 1
    ensures Json.MembersLength(ms) == Json.QuotedLength(ms[0].name) + 1 + Json.TextLength(ms[0].value)
  {
    hide Json.QuotedLength, Json.TextLength;
  }

  /** Lower-case names and underscores are not escaped. */
  lemma {:induction false} ShortName(s: string)
    requires forall i :: 0 <= i < |s| ==> IsLower(s[i]) || s[i] == '_'
    ensures Json.EscapedLength(s) == |s|
  {
    if s != "" { ShortName(s[..|s| - 1]); }
  }

  lemma ChosenFits(c: Command, schema: string)
    requires Accepts(c)
    ensures Json.TextLength(SummaryDoc(1, ChosenUpTo(Requests(c, schema), |Requests(c, schema)|))) <= MAX_BYTES
  {
    hide Canonical, BudgetUpTo, NodesUpTo, Json.TextLength, StepsOk, ChosenUpTo, SummaryDoc, SummaryItems, RequestsUpTo;
    RequestCount(c, schema, |AllSteps(c)|);
    ChosenLength(c, schema, |Requests(c, schema)|);
    SummaryLength(ChosenUpTo(Requests(c, schema), |Requests(c, schema)|));
  }

  // ------------------------------------------------------------------ a lone caller

  /** Caller i of this scope and command stands at pc; the invariant holds. */
  ghost predicate Stands(s: State, i: nat, scope: Scope, c: Command, pc: PC) {
    Inv(s) && i in s.callers && s.callers[i] == Caller(scope, c, pc)
  }

  lemma Moves(s: State, i: nat, a: Action)
    requires Inv(s) && Enabled(s, i, a)
    ensures Inv(Apply(s, i, a)) && Reaches(s, Apply(s, i, a))
  {
    hide Inv, Enabled, Apply, Reaches;
    LedgerSteps.StepKeepsInv(s, i, a);
    OneStepReaches(s, i, a);
  }

  /** An open reservation of the key gives way when the server drops it. */
  lemma FreesKey(s: State, i: nat, k: Key) returns (t: State)
    requires Inv(s) && k !in s.rows && i !in s.callers && i !in s.txs
    ensures Inv(t) && Reaches(s, t) && KeyFree(t, i, k)
    ensures t.callers == s.callers && t.rows == s.rows && i !in t.txs
  {
    hide TxOk, CallerOk, CommitOk, Reaches, KeyOf;
    if KeyFree(s, i, k) {
      StayReaches(s);
      t := s;
    } else {
      var j :| j in s.txs && j in s.callers && s.txs[j].reserved.Some? && KeyOf(s.callers[j]) == k;
      Moves(s, j, ServerAbort);
      t := DropTx(s, j);
      assert Reserving(s, j, k);
      forall m | m in t.txs && m in t.callers && t.txs[m].reserved.Some? ensures KeyOf(t.callers[m]) != k {
        assert Reserving(s, m, k) ==> m == j;
      }
    }
  }

  lemma ReachesLookup(s: State, i: nat, scope: Scope, c: Command) returns (t: State)
    requires Inv(s) && i !in s.callers && i !in s.txs && Json.TextLength(ScopeDoc(scope)) <= MAX_BYTES && Accepts(c)
    ensures Stands(t, i, scope, c, Lookup) && Reaches(s, t) && t.rows == s.rows && t.txs == s.txs
    ensures forall j :: j != i
             ==> (j in t.callers <==> j in s.callers) && (j in s.callers ==> t.callers[j] == s.callers[j])
  {
    hide Inv, Reaches, Accepts, Json.TextLength, ScopeDoc;
    var u := Apply(s, i, Arrive(scope, c));
    Moves(s, i, Arrive(scope, c));
    t := Apply(u, i, Validate(true));
    Moves(u, i, Validate(true));
    ReachesTransitive(s, u, t);
  }

  /** The row a caller finds at its lookup decides at once. */
  lemma ReplaysRow(s: State, i: nat, scope: Scope, c: Command) returns (t: State)
    requires Stands(s, i, scope, c, Lookup) && Reaches(Init, s)
    requires Key(scope, c.id) in s.rows && s.rows[Key(scope, c.id)].input == Canonical(c)
    ensures Reaches(s, t) && Succeeded(t, i) && t.callers[i].scope == scope && t.callers[i].command == c
  {
    hide Inv, Reaches, Canonical, ReadRow;
    LookupDecides(s, i);
    t := Apply(s, i, Read(true));
    OneStepReaches(s, i, Read(true));
  }

  lemma ReachesReserve(s: State, i: nat, scope: Scope, c: Command) returns (t: State)
    requires Stands(s, i, scope, c, Lookup) && KeyFree(s, i, Key(scope, c.id))
    ensures Stands(t, i, scope, c, PC.Reserve) && Reaches(s, t) && KeyFree(t, i, Key(scope, c.id)) && i in t.txs
  {
    hide Inv, Reaches, ReadRow;
    var u := Apply(s, i, Read(true));
    Moves(s, i, Read(true));
    t := Apply(u, i, Open(true));
    Moves(u, i, Open(true));
    ReachesTransitive(s, u, t);
  }

  /** After n statements with the chosen counts. */
  ghost predicate Executed(s: State, i: nat, scope: Scope, c: Command, n: nat) {
    n <= |Requests(c, scope.schema)| && i in s.txs && s.txs[i].reserved.Some? && s.txs[i].reserved.value.status == 0
    && Stands(s, i, scope, c, if n == |Requests(c, scope.schema)| then Save(ChosenUpTo(Requests(c, scope.schema), n))
                              else Execute(ChosenUpTo(Requests(c, scope.schema), n)))
  }

  lemma Reserves(s: State, i: nat, scope: Scope, c: Command) returns (t: State)
    requires Stands(s, i, scope, c, PC.Reserve) && KeyFree(s, i, Key(scope, c.id)) && i in s.txs
    ensures Executed(t, i, scope, c, 0) && Reaches(s, t)
  {
    hide Inv, Reaches, Requests, KeyFree, Canonical;
    t := Apply(s, i, Insert(Inserted));
    Moves(s, i, Insert(Inserted));
  }

  lemma RunsOne(s: State, i: nat, scope: Scope, c: Command, n: nat) returns (t: State)
    requires Executed(s, i, scope, c, n) && n < |Requests(c, scope.schema)| && Accepts(c)
    ensures Executed(t, i, scope, c, n + 1) && Reaches(s, t)
  {
    hide Inv, Reaches, Requests, Accepts, Chosen, ExpectationMet;
    var plan := Requests(c, scope.schema);
    ChosenCount(plan, n);
    ChosenMeets(c, scope.schema, n);
    var a := Action.Run(Chosen(plan[n]));
    t := Apply(s, i, a);
    Moves(s, i, a);
  }

  lemma {:induction false} RunsAll(s: State, i: nat, scope: Scope, c: Command, n: nat) returns (t: State)
    requires Executed(s, i, scope, c, 0) && Accepts(c) && n <= |Requests(c, scope.schema)|
    ensures Executed(t, i, scope, c, n) && Reaches(s, t)
  {
    hide Executed, Reaches, Requests, Accepts;
    if n == 0 {
      StayReaches(s);
      t := s;
    } else {
      var u := RunsAll(s, i, scope, c, n - 1);
      t := RunsOne(u, i, scope, c, n - 1);
      ReachesTransitive(s, u, t);
    }
  }

  lemma Saves(s: State, i: nat, scope: Scope, c: Command) returns (t: State)
    requires Executed(s, i, scope, c, |Requests(c, scope.schema)|) && Accepts(c)
    ensures i in t.txs && Reaches(s, t)
    ensures Stands(t, i, scope, c, PC.Commit(ChosenUpTo(Requests(c, scope.schema), |Requests(c, scope.schema)|)))
  {
    hide Inv, Reaches, Requests, Accepts, ChosenUpTo, SummaryDoc, Json.TextLength;
    ChosenFits(c, scope.schema);
    t := Apply(s, i, Update(true));
    Moves(s, i, Update(true));
  }

  lemma Commits(s: State, i: nat, scope: Scope, c: Command, counts: seq<int>) returns (t: State)
    requires Stands(s, i, scope, c, PC.Commit(counts)) && i in s.txs
    ensures Stands(t, i, scope, c, Done(Success(counts, true))) && Reaches(s, t)
  {
    hide Inv, Reaches;
    t := Apply(s, i, CommitReply(true, true));
    Moves(s, i, CommitReply(true, true));
  }

  /** With a free key and no error reply, reservation, statements, result and commit
      follow one another to an applied success. */
  lemma AppliesFreshKey(s: State, i: nat, scope: Scope, c: Command) returns (t: State)
    requires Stands(s, i, scope, c, Lookup) && KeyFree(s, i, Key(scope, c.id)) && Accepts(c)
    ensures Reaches(s, t) && Succeeded(t, i) && t.callers[i].pc.outcome.applied
    ensures t.callers[i].scope == scope && t.callers[i].command == c
  {
    hide Executed, Inv, Reaches, Requests, Accepts, KeyFree, ChosenUpTo;
    var plan := Requests(c, scope.schema);
    var u := ReachesReserve(s, i, scope, c);
    var v := Reserves(u, i, scope, c);
    ReachesTransitive(s, u, v);
    var w := RunsAll(v, i, scope, c, |plan|);
    ReachesTransitive(s, v, w);
    var x := Saves(w, i, scope, c);
    ReachesTransitive(s, w, x);
    t := Commits(x, i, scope, c, ChosenUpTo(plan, |plan|));
    ReachesTransitive(s, x, t);
  }

  // --------------------------------------------------------------- the exact condition

  /** Caller i runs this command to a success in some continuation. */
  ghost predicate CanSucceed(s: State, i: nat, scope: Scope, c: Command) {
    exists t :: Reaches(s, t) && Succeeded(t, i) && t.callers[i].scope == scope && t.callers[i].command == c
  }

  /** The key is new, or its row holds this very input. */
  ghost predicate Admissible(s: State, scope: Scope, c: Command) {
    Accepts(c) && (Key(scope, c.id) in s.rows ==> s.rows[Key(scope, c.id)].input == Canonical(c))
  }

  lemma AdmissibleSucceeds(s: State, i: nat, scope: Scope, c: Command) returns (t: State)
    requires Reaches(Init, s) && i !in s.callers && i !in s.txs && Json.TextLength(ScopeDoc(scope)) <= MAX_BYTES
    requires Admissible(s, scope, c)
    ensures Reaches(s, t) && Succeeded(t, i) && t.callers[i].scope == scope && t.callers[i].command == c
    ensures Key(scope, c.id) !in s.rows ==> t.callers[i].pc.outcome.applied
  {
    hide Inv, Reaches, Accepts, Canonical, Json.TextLength, ScopeDoc, Stands, KeyFree;
    ReachableInv(s);
    if Key(scope, c.id) in s.rows {
      var u := ReachesLookup(s, i, scope, c);
      ReachesTransitive(Init, s, u);
      t := ReplaysRow(u, i, scope, c);
      ReachesTransitive(s, u, t);
    } else {
      var r := FreesKey(s, i, Key(scope, c.id));
      var u := ReachesLookup(r, i, scope, c);
      ReachesTransitive(s, r, u);
      StaysFree(r, u, i, Key(scope, c.id));
      t := AppliesFreshKey(u, i, scope, c);
      ReachesTransitive(s, u, t);
    }
  }

  lemma StaysFree(s: State, t: State, i: nat, k: Key)
    requires KeyFree(s, i, k) && t.rows == s.rows && t.txs == s.txs
    requires forall j :: j != i
              ==> (j in t.callers <==> j in s.callers) && (j in s.callers ==> t.callers[j] == s.callers[j])
    ensures KeyFree(t, i, k)
  {
    hide KeyOf;
  }

  lemma SuccessIsAdmissible(s: State, i: nat, t: State)
    requires Reaches(Init, s) && Reaches(s, t) && Succeeded(t, i)
    ensures Admissible(s, t.callers[i].scope, t.callers[i].command)
  {
    hide Reaches, Accepts, Canonical, Json.TextLength, ScopeDoc, TxOk, CommitOk, Requests, SummaryDoc, CountsOf;
    ReachesTransitive(Init, s, t);
    ReachableInv(t);
    assert CallerOk(t, i);
    var k := KeyOf(t.callers[i]);
    if k in s.rows {
      ReachableInv(s);
      var a :| 0 <= a < |s.log| && s.log[a].key == k;
      OtherInputNeverSucceeds(s, t, a, i);
    }
  }

  /** From every reachable state a new caller has a run that ends in success if and only
      if its command is accepted and its key is new or holds this very input; with a new
      key that success is an applied one. */
  lemma SuccessIsPossible(s: State, i: nat, scope: Scope, c: Command)
    requires Reaches(Init, s) && i !in s.callers && i !in s.txs && Json.TextLength(ScopeDoc(scope)) <= MAX_BYTES
    ensures CanSucceed(s, i, scope, c) <==> Admissible(s, scope, c)
  {
    hide Reaches, Admissible, Json.TextLength, ScopeDoc;
    if Admissible(s, scope, c) {
      var t := AdmissibleSucceeds(s, i, scope, c);
    }
    if CanSucceed(s, i, scope, c) {
      var t :| Reaches(s, t) && Succeeded(t, i) && t.callers[i].scope == scope && t.callers[i].command == c;
      SuccessIsAdmissible(s, i, t);
    }
  }
}
