/** orm/command_store.go as a state machine: any number of Run calls against one
    database with atomic transactions and a unique (scope, ID) ledger key. One
    action is one database reply, a crash, or a commit whose reply is lost. */
module LedgerMachine {
  import opened Text
  import Json
  import opened CommandInput

  /** What the scope hash commits to; SHA-256 is taken as injective, so it is the key. */
  datatype Scope = Scope(dialect: string, schema: string, namespace: string, tenant: Atom)

  function ScopeDoc(s: Scope): Json.Value {
    Json.Obj([Json.Member("Version", Json.Int(1)), Json.Member("Dialect", Json.Str(s.dialect)),
        Json.Member("Schema", Json.Str(s.schema)),
              Json.Member("Namespace", Json.Str(s.namespace)),
              Json.Member("Tenant", Json.Obj([Json.Member("type", Json.Str(s.tenant.typ)),
                  Json.Member("value", Json.Str(s.tenant.value))]))])
  }

  datatype Key = Key(scope: Scope, id: string)

  /** A ledger row; the empty result of a pending reservation is None. */
  datatype Row = Row(version: int, status: int, scope: Scope, input: Json.Value, fingerprint: Digest,
      result: Option<Json.Value>)

  function SummaryItems(counts: seq<int>): seq<Json.Value> {
    if counts == [] then [] else SummaryItems(counts[..|counts| - 1]) + [Json.Int(counts[|counts| - 1])]
  }

  function SummaryDoc(version: int, counts: seq<int>): Json.Value {
    Json.Obj([Json.Member("version", Json.Int(version)), Json.Member("rows_affected", Json.Arr(SummaryItems(counts)))])
  }

  function DecodeItems(items: seq<Json.Value>): Option<seq<int>> {
    if items == [] then Some([])
    else
      var last := items[|items| - 1];
      match DecodeItems(items[..|items| - 1])
      case None => None
      case Some(ns) => if last.Int? then Some(ns + [last.n]) else None
  }

  datatype Summary = Summary(version: int, counts: seq<int>)

  function DecodeSummary(doc: Json.Value): Option<Summary> {
    match Json.Members(doc)
    case None => None
    case Some(ms) =>
      match (Json.IntField(ms, "version"), Json.ArrayField(ms, "rows_affected"))
      case (Some(v), Some(items)) =>
        (match DecodeItems(items)
         case None => None
         case Some(ns) => Some(Summary(v, ns)))
      case _ => None
  }

  // ----------------------------------------------------------------- Run callers

  datatype Outcome =
    | Success(counts: seq<int>, applied: bool)
    | Conflict        // same ID, other input
    | Corrupt         // a record the reader refuses
    | Failure         // refused, or rolled back for certain
    | Unknown         // rollback or commit reply lost
    | Crashed

  datatype PC =
    | Start
    | Lookup
    | Begin
    | Reserve
    | Reread              // the unique key refused the reservation; look again
    | Execute(counts: seq<int>)
    | Save(counts: seq<int>)
    | Commit(counts: seq<int>)
    | Undo(cause: PC)     // rolling back; only a confirmed rollback returns its cause
    | Done(outcome: Outcome)

  datatype Caller = Caller(scope: Scope, command: Command, pc: PC)

  function KeyOf(c: Caller): Key { Key(c.scope, c.command.id) }

  ghost function InputOf(c: Caller): Json.Value { Canonical(c.command) }

  ghost function DigestOf(c: Caller): Digest { Digest(DocVersion(c.command), Canonical(c.command)) }

  ghost function PlanOf(c: Caller): seq<Request> { Requests(c.command, c.scope.schema) }

  /** writecheck.Options.Check: a versioned write and a hook must hit exactly one row. */
  predicate ExpectationMet(r: Request, n: int) {
    n >= 0 && (r.version.Some? ==> n == 1) && (r.expected.Some? ==> n == r.expected.value)
  }

  // ------------------------------------------------------------ database and runs

  datatype Effect = Effect(request: Request, count: int)

  datatype Tx = Tx(reserved: Option<Row>, effects: seq<Effect>)

  /** A committed transaction: who ran it, under which key, with what effects. */
  datatype Committed = Committed(caller: nat, key: Key, effects: seq<Effect>)

  datatype State = State(rows: map<Key, Row>, log: seq<Committed>, txs: map<nat, Tx>, callers: map<nat, Caller>)

  const Init := State(map[], [], map[], map[])

  function CountsOf(effects: seq<Effect>): seq<int> {
    if effects == [] then [] else CountsOf(effects[..|effects| - 1]) + [effects[|effects| - 1].count]
  }

  ghost function Reservation(c: Caller): Row { Row(1, 0, c.scope, InputOf(c), DigestOf(c), None) }

  /** The checks of lookup on one fetched row, in the order they are made. */
  ghost function ReadRow(c: Caller, row: Row): Outcome {
    if row.version != 1 || row.status != 1 || Json.TextLength(ScopeDoc(row.scope)) > MAX_BYTES
       || Json.TextLength(row.input) > MAX_BYTES || row.result.None? || Json.TextLength(row.result.value) > MAX_BYTES
          then Corrupt
    else if Fingerprint(row.input) != Some(row.fingerprint) then Corrupt
    else if row.scope != c.scope || row.input != InputOf(c) || row.fingerprint != DigestOf(c) then Conflict
    else
      match DecodeSummary(row.result.value)
      case None => Corrupt
      case Some(s) =>
        if s.version != 1 || |s.counts| != |PlanOf(c)| || (exists i :: 0 <= i < |s.counts| && s.counts[i] < 0)
           || SummaryDoc(s.version, s.counts) != row.result.value then Corrupt
        else Success(s.counts, false)
  }

  datatype Action =
    | Arrive(scope: Scope, command: Command)
    | Validate(ok: bool)                      // snapshot and planner verdict
    | Read(ok: bool)                          // the lookup query, outside any transaction
    | Open(ok: bool)
    | Insert(reply: InsertReply)
    | Run(count: int)                         // one business statement and its row count
    | RunError
    | Update(ok: bool)                        // the result and status of the reservation
    | Cancel                                  // the last context check
    | CommitReply(applied: bool, ok: bool)
    | RollbackReply(ok: bool)
    | Crash
    | ServerAbort                             // the server drops an open transaction
    | LateCommit                              // a commit sent by a caller that no longer waits for it

  datatype InsertReply = Inserted | UniqueViolation | OtherError

  function SetPC(s: State, i: nat, pc: PC): State
    requires i in s.callers
  {
    s.(callers := s.callers[i := s.callers[i].(pc := pc)])
  }

  function DropTx(s: State, i: nat): State { s.(txs := s.txs - {i}) }

  /** The unique key: no committed row, and no other open reservation of the key. */
  predicate KeyFree(s: State, i: nat, k: Key) {
    k !in s.rows && forall j :: j in s.txs && j != i && j in s.callers && s.txs[j].reserved.Some?
                     ==> KeyOf(s.callers[j]) != k
  }

  predicate Statement(s: State, i: nat) { i in s.callers && s.callers[i].pc.Execute? }

  ghost predicate Enabled(s: State, i: nat, a: Action) {
    match a
    case Arrive(scope, command) => i !in s.callers && i !in s.txs && Json.TextLength(ScopeDoc(scope)) <= MAX_BYTES
    case ServerAbort => i in s.txs
    case LateCommit =>
      && i in s.txs && i in s.callers && s.txs[i].reserved.Some? && s.txs[i].reserved.value.status == 1
      && (s.callers[i].pc == Done(Unknown) || s.callers[i].pc == Done(Crashed))
    case Crash => i in s.callers && !s.callers[i].pc.Done?
    case Validate(ok) => i in s.callers && s.callers[i].pc.Start? && (ok ==> Accepts(s.callers[i].command))
    case Read(ok) => i in s.callers && (s.callers[i].pc.Lookup? || s.callers[i].pc.Reread?)
    case Open(ok) => i in s.callers && s.callers[i].pc.Begin?
    case Insert(reply) =>
      && i in s.callers && s.callers[i].pc.Reserve?
      && (reply.Inserted? ==> i in s.txs && KeyFree(s, i, KeyOf(s.callers[i])))
      && (reply.UniqueViolation? ==> KeyOf(s.callers[i]) in s.rows)
    case Run(count) => Statement(s, i) && |s.callers[i].pc.counts| < |PlanOf(s.callers[i])| && i in s.txs
    case RunError => Statement(s, i)
    case Update(ok) => i in s.callers && s.callers[i].pc.Save? && (ok ==> i in s.txs)
    case Cancel => i in s.callers && s.callers[i].pc.Commit?
    case CommitReply(applied, ok) =>
       i in s.callers && s.callers[i].pc.Commit? && (applied ==> i in s.txs) && (ok ==> applied)
    case RollbackReply(ok) => i in s.callers && s.callers[i].pc.Undo?
  }

  ghost function AfterRead(s: State, i: nat): State
    requires i in s.callers && (s.callers[i].pc.Lookup? || s.callers[i].pc.Reread?)
  {
    var c := s.callers[i];
    if KeyOf(c) in s.rows then SetPC(s, i, Done(ReadRow(c, s.rows[KeyOf(c)])))
    else SetPC(s, i, if c.pc.Lookup? then Begin else Done(Unknown))
  }

  ghost function NextStatement(c: Caller, counts: seq<int>): PC {
    if |counts| == |PlanOf(c)| then Save(counts) else Execute(counts)
  }

  ghost function AfterInsert(s: State, i: nat): State
    requires i in s.callers
  {
    var c := s.callers[i];
    SetPC(s.(txs := s.txs[i := Tx(Some(Reservation(c)), [])]), i, NextStatement(c, []))
  }

  ghost function AfterStatement(s: State, i: nat, n: int): State
    requires Statement(s, i) && |s.callers[i].pc.counts| < |PlanOf(s.callers[i])| && i in s.txs
  {
    var c := s.callers[i];
    var r := PlanOf(c)[|c.pc.counts|];
    if !ExpectationMet(r, n) then SetPC(s, i, Undo(Done(if n < 0 then Corrupt else Failure)))
    else
      var tx := s.txs[i];
      SetPC(s.(txs := s.txs[i := tx.(effects := tx.effects + [Effect(r, n)])]), i, NextStatement(c, c.pc.counts + [n]))
  }

  /** The statement hits one row exactly when this transaction's reservation is pending. */
  function AfterUpdate(s: State, i: nat): State
    requires i in s.callers && s.callers[i].pc.Save? && i in s.txs
  {
    var counts := s.callers[i].pc.counts;
    var tx := s.txs[i];
    var doc := SummaryDoc(1, counts);
    if Json.TextLength(doc) > MAX_BYTES || tx.reserved.None? || tx.reserved.value.status != 0
    then SetPC(s, i, Undo(Done(Corrupt)))
    else SetPC(s.(txs := s.txs[i := tx.(reserved := Some(tx.reserved.value.(status := 1, result := Some(doc))))]), i,
       Commit(counts))
  }

  /** A commit publishes the ledger row and the business effects together. */
  function Publish(s: State, i: nat): State
    requires i in s.callers && i in s.txs
  {
    var tx := s.txs[i];
    var k := KeyOf(s.callers[i]);
    DropTx(s.(rows := if tx.reserved.Some? then s.rows[k := tx.reserved.value] else s.rows,
              log := s.log + [Committed(i, k, tx.effects)]), i)
  }

  ghost function Apply(s: State, i: nat, a: Action): State
    requires Enabled(s, i, a)
  {
    match a
    case Arrive(scope, command) => s.(callers := s.callers[i := Caller(scope, command, Start)])
    case ServerAbort => DropTx(s, i)
    case LateCommit => Publish(s, i)
    case Crash => SetPC(s, i, Done(Crashed))
    case Validate(ok) => SetPC(s, i, if ok then Lookup else Done(Failure))
    case Read(ok) => if ok then AfterRead(s, i) else SetPC(s, i, Done(Failure))
    case Open(ok) => if ok then SetPC(s.(txs := s.txs[i := Tx(None, [])]), i, Reserve) else SetPC(s, i, Done(Failure))
    case Insert(reply) =>
      if reply.Inserted? then AfterInsert(s, i)
      else SetPC(s, i, Undo(if reply.UniqueViolation? then Reread else Done(Failure)))
    case Run(n) => AfterStatement(s, i, n)
    case RunError => SetPC(s, i, Undo(Done(Failure)))
    case Update(ok) => if ok then AfterUpdate(s, i) else SetPC(s, i, Undo(Done(Failure)))
    case Cancel => SetPC(s, i, Undo(Done(Failure)))
    case CommitReply(applied, ok) =>
      SetPC(if applied then Publish(s, i)
          else s, i, Done(if ok then Success(s.callers[i].pc.counts, true) else Unknown))
    case RollbackReply(ok) =>
      if ok then SetPC(DropTx(s, i), i, s.callers[i].pc.cause) else SetPC(s, i, Done(Unknown))
  }

  ghost predicate Next(s: State, s': State) {
    exists i, a :: Enabled(s, i, a) && s' == Apply(s, i, a)
  }

  /** s' is reached from s by some finite interleaving. */
  ghost predicate Reaches(s: State, s': State) {
    exists tr: seq<State> :: Trace(tr, s, s')
  }

  ghost predicate Trace(tr: seq<State>, s: State, s': State) {
    |tr| > 0 && tr[0] == s && tr[|tr| - 1] == s' && forall k :: 0 <= k < |tr| - 1 ==> Next(tr[k], tr[k + 1])
  }
}
