/** Any number of versioned updates against one table, each in its own transaction,
    with rollbacks, crashes and lost commit replies. */
module OptimisticRuns {
  import opened Text
  import opened Optimistic

  type Id = nat
  type Call = nat

  /** What every update of the table shares; rest is the meaning of other conditions. */
  datatype World = World(table: Table, tenantColumn: string, version: string, key: nat, rest: (Node, Row) -> bool)

  /** One committed content of a row, and the call that wrote it. */
  datatype Entry = Entry(row: Row, writer: Option<Call>)

  datatype Phase =
    | Holding(id: Id, before: Row, q: Request, s: Settings)
    | Won(id: Id, before: Row, q: Request, s: Settings)
    | Refused(affected: nat)
    | Failed
    | Unknown

  datatype State = State(rows: map<Id, seq<Entry>>, calls: map<Call, Phase>)

  datatype Action =
    | Execute(call: Call, q: Request, s: Settings)
    | Commit(call: Call, replied: bool)
    | Abort(call: Call, replied: bool)

  // ------------------------------------------------------------------ the machine

  ghost predicate Versioned(w: World, q: Request, s: Settings) {
    && Accepts(q, s, w.key) && TargetOf(q, s).schema == w.table
    && TargetOf(q, s).policy.tenantColumn == w.tenantColumn && q.version.column == w.version
  }

  ghost predicate NonEmpty(st: State) { forall id :: id in st.rows ==> st.rows[id] != [] }

  ghost function Current(st: State, id: Id): Row
    requires id in st.rows && st.rows[id] != []
  {
    st.rows[id][|st.rows[id]| - 1].row
  }

  ghost function Contents(st: State): map<Id, Row>
    requires NonEmpty(st)
  {
    map id | id in st.rows :: Current(st, id)
  }

  ghost predicate Locks(st: State, call: Call, id: Id) {
    call in st.calls && st.calls[call].Holding? && st.calls[call].id == id
  }

  ghost function Matched(w: World, st: State, q: Request): set<Id>
    requires NonEmpty(st)
  {
    set id | id in st.rows && Matches(Accepted(q), Current(st, id), w.rest)
  }

  ghost function Only(ids: set<Id>): (id: Id)
    requires |ids| == 1
    ensures ids == {id}
  {
    var id :| id in ids;
    assert |ids - {id}| == 0;
    id
  }

  /** A statement waits for the rows it would change. */
  ghost predicate Unlocked(w: World, st: State, q: Request)
    requires NonEmpty(st)
  {
    forall call, id :: Locks(st, call, id) ==> id !in Matched(w, st, q)
  }

  ghost predicate Enabled(w: World, st: State, a: Action) {
    match a
    case Execute(call, q, s) => call !in st.calls && Versioned(w, q, s) && NonEmpty(st) && Unlocked(w, st, q)
    case Commit(call, _) => call in st.calls && st.calls[call].Holding? && st.calls[call].id in st.rows
    case Abort(call, _) => call in st.calls && st.calls[call].Holding?
  }

  /** The affected count decides at once; only a count of one may commit. */
  ghost function Executed(w: World, st: State, q: Request, s: Settings): Phase
    requires NonEmpty(st)
  {
    var ids := Matched(w, st, q);
    if |ids| == 1 then Holding(Only(ids), Current(st, Only(ids)), q, s) else Refused(|ids|)
  }

  ghost function Next(w: World, st: State, a: Action): State
    requires Enabled(w, st, a)
  {
    match a
    case Execute(call, q, s) => st.(calls := st.calls[call := Executed(w, st, q, s)])
    case Commit(call, replied) =>
      var h := st.calls[call];
      State(st.rows[h.id := st.rows[h.id] + [Entry(Changed(Accepted(h.q), h.before), Some(call))]],
            st.calls[call := if replied then Won(h.id, h.before, h.q, h.s) else Unknown])
    case Abort(call, replied) => st.(calls := st.calls[call := if replied then Failed else Unknown])
  }

  // -------------------------------------------------------------------- invariant

  ghost predicate Link(w: World, a: Row, b: Row) {
    && w.version in a && a[w.version].Integer? && 0 <= a[w.version].n < MAX_INT64
    && Equal(b, w.version, Integer(a[w.version].n + 1))
    && KeepsKey(w, a, b)
  }

  ghost predicate KeepsKey(w: World, a: Row, b: Row) {
    w.key < |w.table.keys| &&
    forall c :: c == w.tenantColumn || c in Names(w.table.keys[w.key].columns) ==>
      (c in a <==> c in b) && (c in a ==> b[c] == a[c])
  }

  ghost predicate Chain(w: World, h: seq<Entry>) {
    h != [] && forall i :: 0 < i < |h| ==> Link(w, h[i - 1].row, h[i].row)
  }

  ghost predicate Chains(w: World, rows: map<Id, seq<Entry>>) { forall id :: id in rows ==> Chain(w, rows[id]) }

  /** What holds of an update and the row it was run against. */
  ghost predicate Ran(w: World, before: Row, q: Request, s: Settings) {
    Versioned(w, q, s) && Matches(Accepted(q), before, w.rest)
  }

  ghost predicate HoldingOk(w: World, st: State, call: Call, id: Id) {
    && id in st.rows && st.rows[id] != [] && call in st.calls && st.calls[call].Holding?
    && Ran(w, st.calls[call].before, st.calls[call].q, st.calls[call].s)
    && Current(st, id) == st.calls[call].before
  }

  /** Content i of the row was replaced by this call. */
  ghost predicate Replaced(h: seq<Entry>, i: nat, call: Call, before: Row, q: Request) {
    i + 1 < |h| && h[i].row == before && h[i + 1] == Entry(Changed(Accepted(q), before), Some(call))
  }

  ghost predicate WonOk(w: World, st: State, call: Call) {
    var p := st.calls;
    call in p && p[call].Won? ==>
      && Ran(w, p[call].before, p[call].q, p[call].s) && p[call].id in st.rows
      && exists i :: Replaced(st.rows[p[call].id], i, call, p[call].before, p[call].q)
  }

  ghost predicate RefusedOk(st: State, call: Call) {
    call in st.calls && st.calls[call].Refused? ==> st.calls[call].affected == 0
  }

  ghost predicate Inv(w: World, st: State) {
    && Chains(w, st.rows) && NonEmpty(st) && w.key < |w.table.keys|
    && UniqueKey(Contents(st), w.table.keys[w.key])
    && (forall call, id :: Locks(st, call, id) ==> HoldingOk(w, st, call, id))
    && (forall a, b, id :: Locks(st, a, id) && Locks(st, b, id) ==> a == b)
    && (forall call :: WonOk(w, st, call))
    && (forall call :: RefusedOk(st, call))
  }

  /** Any table whose primary key is unique, before the first call. */
  ghost predicate Initial(w: World, st: State) {
    && st.calls == map[] && w.key < |w.table.keys|
    && (forall id :: id in st.rows ==> |st.rows[id]| == 1) && NonEmpty(st)
    && UniqueKey(Contents(st), w.table.keys[w.key])
  }

  lemma InitialInv(w: World, st: State)
    requires Initial(w, st)
    ensures Inv(w, st)
  {
  }

  // ------------------------------------------------------------------------ steps

  lemma RanLinks(w: World, before: Row, q: Request, s: Settings)
    requires Ran(w, before, q, s)
    ensures Link(w, before, Changed(Accepted(q), before))
  {
    hide Accepts, Eligible, Matches, Changed, Accepted;
    AcceptedRange(q, s, w.key);
    ChangeMeans(q, s, w.key, before, w.rest);
  }

  lemma AcceptedRange(q: Request, s: Settings, p: int)
    requires Accepts(q, s, p)
    ensures 0 <= q.version.expected < MAX_INT64 && 0 <= p < |TargetOf(q, s).schema.keys|
  {
    hide Walk, TenantTarget, KeyPinned, TenantUsable;
  }

  lemma AffectsAtMostOne(w: World, st: State, q: Request, s: Settings, a: Id, b: Id)
    requires NonEmpty(st) && Versioned(w, q, s) && w.key < |w.table.keys|
             && UniqueKey(Contents(st), w.table.keys[w.key])
    requires a in Matched(w, st, q) && b in Matched(w, st, q)
    ensures a == b
  {
    hide Accepts, Matches;
    MatchesAtMostOne(q, s, w.key, Contents(st), a, b, w.rest);
  }

  lemma AffectedCount(w: World, st: State, q: Request, s: Settings)
    requires NonEmpty(st) && Versioned(w, q, s) && w.key < |w.table.keys|
             && UniqueKey(Contents(st), w.table.keys[w.key])
    ensures |Matched(w, st, q)| <= 1
  {
    hide Versioned, UniqueKey;
    var ids := Matched(w, st, q);
    if |ids| > 1 {
      var a :| a in ids;
      var others := ids - {a};
      assert |others| > 0;
      var b :| b in others;
      AffectsAtMostOne(w, st, q, s, a, b);
    }
  }

  lemma ExecuteKeepsInv(w: World, st: State, call: Call, q: Request, s: Settings)
    requires Inv(w, st) && Enabled(w, st, Execute(call, q, s))
    ensures Inv(w, Next(w, st, Execute(call, q, s)))
  {
    hide UniqueKey, Versioned, Chain, Replaced, Matches;
    var t := Next(w, st, Execute(call, q, s));
    AffectedCount(w, st, q, s);
    assert Contents(t) == Contents(st);
    var ids := Matched(w, st, q);
    forall c, id | Locks(t, c, id) ensures HoldingOk(w, t, c, id) {
      if c == call { assert id in ids; } else { assert Locks(st, c, id); }
    }
    forall id | Locks(t, call, id) ensures id in ids {}
    forall c, id | c != call && Locks(t, c, id) ensures Locks(st, c, id) && id !in ids {}
    assert forall a, b, id :: Locks(t, a, id) && Locks(t, b, id) ==> a == b;
    forall c ensures WonOk(w, t, c) { assert WonOk(w, st, c); }
    forall c ensures RefusedOk(t, c) { assert RefusedOk(st, c); }
  }

  lemma AbortKeepsInv(w: World, st: State, call: Call, replied: bool)
    requires Inv(w, st) && Enabled(w, st, Abort(call, replied))
    ensures Inv(w, Next(w, st, Abort(call, replied)))
  {
    hide UniqueKey, Versioned, Chain, Replaced, Matches;
    var t := Next(w, st, Abort(call, replied));
    assert Contents(t) == Contents(st);
    forall c, id | Locks(t, c, id) ensures HoldingOk(w, t, c, id) { assert Locks(st, c, id); }
    forall a, b, id | Locks(t, a, id) && Locks(t, b, id) ensures a == b {
      assert Locks(st, a, id) && Locks(st, b, id);
    }
    forall c ensures WonOk(w, t, c) { assert WonOk(w, st, c); }
    forall c ensures RefusedOk(t, c) { assert RefusedOk(st, c); }
  }

  lemma SameKeyKept(k: Key, a: Row, a2: Row, b: Row, b2: Row)
    requires forall c :: c in Names(k.columns) ==> (c in a <==> c in a2) && (c in a ==> a2[c] == a[c])
    requires forall c :: c in Names(k.columns) ==> (c in b <==> c in b2) && (c in b ==> b2[c] == b[c])
    ensures SameKey(a2, b2, k) ==> SameKey(a, b, k)
  {
    forall i | 0 <= i < |k.columns| ensures k.columns[i].name in Names(k.columns) {}
  }

  /** Replacing one row by another with the same key keeps the key unique. */
  lemma UniqueKept(w: World, rows: map<Id, Row>, id: Id, row: Row)
    requires w.key < |w.table.keys| && id in rows && KeepsKey(w, rows[id], row)
    requires UniqueKey(rows, w.table.keys[w.key])
    ensures UniqueKey(rows[id := row], w.table.keys[w.key])
  {
    hide SameKey, Names;
    var k, next := w.table.keys[w.key], rows[id := row];
    forall a, b | a in next && b in next && SameKey(next[a], next[b], k) ensures a == b {
      SameKeyKept(k, rows[a], next[a], rows[b], next[b]);
    }
  }

  lemma ChainGrows(w: World, h: seq<Entry>, e: Entry)
    requires Chain(w, h) && Link(w, h[|h| - 1].row, e.row)
    ensures Chain(w, h + [e])
  {
    hide Link;
  }

  lemma ReplacedStays(h: seq<Entry>, more: seq<Entry>, i: nat, call: Call, before: Row, q: Request)
    requires Replaced(h, i, call, before, q) && h <= more
    ensures Replaced(more, i, call, before, q)
  {
  }

  lemma CommitKeepsWon(w: World, st: State, call: Call, replied: bool, c: Call)
    requires Inv(w, st) && Enabled(w, st, Commit(call, replied))
    ensures WonOk(w, Next(w, st, Commit(call, replied)), c)
  {
    hide UniqueKey, Versioned, Chain, Replaced, Matches, Changed, Accepted;
    var t, h := Next(w, st, Commit(call, replied)), st.calls[call];
    assert WonOk(w, st, c) && Locks(st, call, h.id);
    if c == call {
      var i := |st.rows[h.id]| - 1;
      JustReplaced(st.rows[h.id], call, h.before, h.q);
      if replied { assert Replaced(t.rows[h.id], i, call, h.before, h.q); }
    } else if c in st.calls && st.calls[c].Won? {
      var p := st.calls[c];
      var i :| Replaced(st.rows[p.id], i, c, p.before, p.q);
      ReplacedStays(st.rows[p.id], t.rows[p.id], i, c, p.before, p.q);
    }
  }

  lemma JustReplaced(h: seq<Entry>, call: Call, before: Row, q: Request)
    requires h != [] && h[|h| - 1].row == before
    ensures Replaced(h + [Entry(Changed(Accepted(q), before), Some(call))], |h| - 1, call, before, q)
  {
  }

  lemma CommitKeepsTable(w: World, st: State, call: Call, replied: bool)
    requires Inv(w, st) && Enabled(w, st, Commit(call, replied))
    ensures var t := Next(w, st, Commit(call, replied));
            Chains(w, t.rows) && NonEmpty(t) && UniqueKey(Contents(t), w.table.keys[w.key])
  {
    hide UniqueKey, Versioned, Chain, Replaced, Matches, Changed, Accepted, WonOk;
    var t, h := Next(w, st, Commit(call, replied)), st.calls[call];
    assert Locks(st, call, h.id);
    var after := Changed(Accepted(h.q), h.before);
    RanLinks(w, h.before, h.q, h.s);
    ChainGrows(w, st.rows[h.id], Entry(after, Some(call)));
    assert Contents(t) == Contents(st)[h.id := after];
    UniqueKept(w, Contents(st), h.id, after);
  }

  lemma CommitKeepsInv(w: World, st: State, call: Call, replied: bool)
    requires Inv(w, st) && Enabled(w, st, Commit(call, replied))
    ensures Inv(w, Next(w, st, Commit(call, replied)))
  {
    hide UniqueKey, Versioned, Chain, Replaced, Matches, Changed, Accepted, WonOk;
    var t, h := Next(w, st, Commit(call, replied)), st.calls[call];
    assert Locks(st, call, h.id);
    CommitKeepsTable(w, st, call, replied);
    forall c, id | Locks(t, c, id) ensures HoldingOk(w, t, c, id) {
      assert Locks(st, c, id);
      assert id != h.id;
    }
    forall a, b, id | Locks(t, a, id) && Locks(t, b, id) ensures a == b {
      assert Locks(st, a, id) && Locks(st, b, id);
    }
    forall c ensures WonOk(w, t, c) { CommitKeepsWon(w, st, call, replied, c); }
    forall c ensures RefusedOk(t, c) { assert RefusedOk(st, c); }
  }

  /** Every action keeps the invariant. */
  lemma StepKeepsInv(w: World, st: State, a: Action)
    requires Inv(w, st) && Enabled(w, st, a)
    ensures Inv(w, Next(w, st, a))
  {
    hide Inv, Enabled, Next;
    match a
    case Execute(call, q, s) => ExecuteKeepsInv(w, st, call, q, s);
    case Commit(call, replied) => CommitKeepsInv(w, st, call, replied);
    case Abort(call, replied) => AbortKeepsInv(w, st, call, replied);
  }

  // ------------------------------------------------------------------------- runs

  ghost predicate Step(w: World, a: State, b: State) { exists x :: Enabled(w, a, x) && Next(w, a, x) == b }

  ghost predicate Run(w: World, states: seq<State>) {
    states != [] && Initial(w, states[0]) && forall i :: 0 < i < |states| ==> Step(w, states[i - 1], states[i])
  }

  lemma {:induction false} RunInv(w: World, states: seq<State>, n: nat)
    requires Run(w, states) && n < |states|
    ensures Inv(w, states[n])
  {
    if n == 0 {
      InitialInv(w, states[0]);
    } else {
      RunInv(w, states, n - 1);
      assert Step(w, states[n - 1], states[n]);
      var x :| Enabled(w, states[n - 1], x) && Next(w, states[n - 1], x) == states[n];
      StepKeepsInv(w, states[n - 1], x);
    }
  }

  ghost predicate Extends(a: State, b: State) { forall id :: id in a.rows ==> id in b.rows && a.rows[id] <= b.rows[id] }

  /** Committed contents are never lost or rewritten. */
  lemma {:induction false} HistoryExtends(w: World, states: seq<State>, i: nat, j: nat)
    requires Run(w, states) && i <= j < |states|
    ensures Extends(states[i], states[j])
    decreases j
  {
    if i < j {
      HistoryExtends(w, states, i, j - 1);
      assert Step(w, states[j - 1], states[j]);
    }
  }

  // --------------------------------------------------------------------- theorems

  lemma {:induction false} ChainAdds(w: World, h: seq<Entry>, i: nat, j: nat)
    requires Chain(w, h) && i < j < |h|
    ensures w.version in h[i].row && h[i].row[w.version].Integer?
    ensures w.version in h[j].row && h[j].row[w.version].Integer?
    ensures h[j].row[w.version].n == h[i].row[w.version].n + (j - i)
    decreases j
  {
    hide KeepsKey;
    assert Link(w, h[j - 1].row, h[j].row);
    if i < j - 1 { ChainAdds(w, h, i, j - 1); }
  }

  /** In every interleaving the versions of a row are an unbroken +1 chain. */
  lemma UnbrokenChain(w: World, states: seq<State>, n: nat, id: Id, i: nat, j: nat)
    requires Run(w, states) && n < |states| && id in states[n].rows && i < j < |states[n].rows[id]|
    ensures var h := states[n].rows[id];
            && w.version in h[i].row && h[i].row[w.version].Integer?
            && w.version in h[j].row && h[j].row[w.version].Integer?
            && h[j].row[w.version].n == h[i].row[w.version].n + (j - i)
  {
    hide Step;
    RunInv(w, states, n);
    ChainAdds(w, states[n].rows[id], i, j);
  }

  lemma SameVersionSamePlace(w: World, h: seq<Entry>, i: nat, j: nat)
    requires Chain(w, h) && i < |h| && j < |h|
    requires w.version in h[i].row && w.version in h[j].row && h[i].row[w.version] == h[j].row[w.version]
    ensures i == j
  {
    if i < j { ChainAdds(w, h, i, j); }
    if j < i { ChainAdds(w, h, j, i); }
  }

  lemma RanVersion(w: World, before: Row, q: Request, s: Settings)
    requires Ran(w, before, q, s)
    ensures Equal(before, w.version, Integer(q.version.expected))
  {
    hide Accepts, Holds;
  }

  /** Each expected version of a row is won at most once. */
  lemma WonOnce(w: World, states: seq<State>, n: nat, a: Call, b: Call)
    requires Run(w, states) && n < |states|
    requires a in states[n].calls && b in states[n].calls && states[n].calls[a].Won? && states[n].calls[b].Won?
    requires states[n].calls[a].id == states[n].calls[b].id
    requires states[n].calls[a].q.version.expected == states[n].calls[b].q.version.expected
    ensures a == b
  {
    hide Step, Ran, Chain, UniqueKey;
    RunInv(w, states, n);
    var st := states[n];
    var pa, pb := st.calls[a], st.calls[b];
    assert WonOk(w, st, a) && WonOk(w, st, b);
    var h := st.rows[pa.id];
    var i :| Replaced(h, i, a, pa.before, pa.q);
    var j :| Replaced(h, j, b, pb.before, pb.q);
    RanVersion(w, pa.before, pa.q, pa.s);
    RanVersion(w, pb.before, pb.q, pb.s);
    SameVersionSamePlace(w, h, i, j);
  }

  /** No lost update: whoever read a row at some point of the run and later wins with
      the version it read has replaced exactly the content it read. */
  lemma NoLostUpdate(w: World, states: seq<State>, read: nat, n: nat, id: Id, call: Call)
    requires Run(w, states) && read <= n < |states|
    requires id in states[read].rows && states[read].rows[id] != []
    requires call in states[n].calls && states[n].calls[call].Won? && states[n].calls[call].id == id
    requires Equal(Current(states[read], id), w.version, Integer(states[n].calls[call].q.version.expected))
    ensures states[n].calls[call].before == Current(states[read], id)
    ensures id in states[n].rows
    ensures exists i :: Replaced(states[n].rows[id], i, call, Current(states[read], id), states[n].calls[call].q)
  {
    hide Step, Ran, Chain, UniqueKey;
    RunInv(w, states, n);
    HistoryExtends(w, states, read, n);
    var p, h := states[n].calls[call], states[n].rows[id];
    assert WonOk(w, states[n], call);
    var i :| Replaced(h, i, call, p.before, p.q);
    RanVersion(w, p.before, p.q, p.s);
    var j := |states[read].rows[id]| - 1;
    assert h[j] == states[read].rows[id][j];
    SameVersionSamePlace(w, h, i, j);
  }

  /** A versioned update changes at most one row: the only refusal is a conflict. */
  lemma RefusalIsConflict(w: World, states: seq<State>, n: nat, call: Call)
    requires Run(w, states) && n < |states| && call in states[n].calls && states[n].calls[call].Refused?
    ensures states[n].calls[call].affected == 0
  {
    RunInv(w, states, n);
    assert RefusedOk(states[n], call);
  }

  /** Every row a call wins belongs to that call's tenant, before and after, and its
      key never changes. */
  lemma WinsOwnTenant(w: World, states: seq<State>, n: nat, call: Call)
    requires Run(w, states) && n < |states| && call in states[n].calls && states[n].calls[call].Won?
    ensures var p := states[n].calls[call];
            var after := Changed(Accepted(p.q), p.before);
            && p.s.tenant.Some? && p.s.tenant.value.Integer?
            && Equal(p.before, w.tenantColumn, p.s.tenant.value)
            && Equal(after, w.tenantColumn, p.s.tenant.value)
            && KeepsKey(w, p.before, after)
  {
    hide Step, Ran, Chain, UniqueKey;
    RunInv(w, states, n);
    var p := states[n].calls[call];
    assert WonOk(w, states[n], call);
    RanOwnTenant(w, p.before, p.q, p.s);
  }

  lemma RanOwnTenant(w: World, before: Row, q: Request, s: Settings)
    requires Ran(w, before, q, s)
    ensures s.tenant.Some? && s.tenant.value.Integer? && Equal(before, w.tenantColumn, s.tenant.value)
    ensures Equal(Changed(Accepted(q), before), w.tenantColumn, s.tenant.value)
    ensures KeepsKey(w, before, Changed(Accepted(q), before))
  {
    hide Holds, Walk, KeyPinned, OnlyPrimary, Changed, Accepted, Matches;
    MatchesOwnTenant(q, s, w.key, before, w.rest);
    RanLinks(w, before, q, s);
  }
}
