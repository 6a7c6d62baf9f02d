/** The loops of commandFields and snapshotCommand: budgets charged one field at a
    time, maps walked in an arbitrary order, three documents grown side by side.
    Both are proved to compute exactly the specification in CommandInput. */
module CommandSnapshot {
  import opened Text
  import Json
  import opened CommandInput

  function NamesOf(fs: seq<Field>): seq<string> {
    if fs == [] then [] else NamesOf(fs[..|fs| - 1]) + [fs[|fs| - 1].name]
  }

  lemma {:induction false} CostGrows(m: map<string, Scalar>, names: seq<string>, n: nat)
    requires n <= |names| && forall i :: 0 <= i < |names| ==> names[i] in m
    ensures FieldsCost(FieldList(m, names[..n])) <= FieldsCost(FieldList(m, names))
  {
    hide FieldOf, FieldCost;
    if n < |names| {
      CostGrows(m, names[..|names| - 1], n);
      assert names[..|names| - 1][..n] == names[..n];
    } else {
      assert names[..n] == names;
    }
  }

  lemma FieldListOneMore(m: map<string, Scalar>, names: seq<string>, i: nat)
    requires i < |names| && forall j :: 0 <= j < |names| ==> names[j] in m
    ensures FieldList(m, names[..i + 1]) == FieldList(m, names[..i]) + [FieldOf(m, names[i])]
    ensures FieldsCost(FieldList(m, names[..i + 1]))
            == FieldsCost(FieldList(m, names[..i])) + FieldCost(FieldOf(m, names[i]))
  {
    hide FieldOf, FieldCost;
    assert names[..i + 1][..i] == names[..i];
  }

  /** The order of the map walk is left open: any name may come next. */
  method WalkNames(input: map<string, Scalar>) returns (names: Option<seq<string>>)
    ensures names.Some? <==> forall k :: k in input ==> Ident(k)
    ensures names.Some? ==> names.value == SortedNames(input.Keys)
  {
    var rest := input.Keys;
    var walk: seq<string> := [];
    while rest != {}
      invariant rest <= input.Keys
      invariant forall x :: x in walk <==> x in input.Keys && x !in rest
      invariant DistinctBy(walk, Self)
      invariant forall x :: x in walk ==> Ident(x)
      decreases |rest|
    {
      var k :| k in rest;
      if !Ident(k) { return None; }
      assert k !in walk;
      walk := walk + [k];
      rest := rest - {k};
    }
    SortedWalk(walk, input.Keys);
    return Some(SortBy(walk, Self));
  }

  ghost predicate Scalars(m: map<string, Scalar>, names: seq<string>) {
    forall i :: 0 <= i < |names| ==> names[i] in m && ScalarAtom(m[names[i]]).Some?
  }

  lemma ScalarsStart(m: map<string, Scalar>, names: seq<string>)
    ensures Scalars(m, names[..0]) && FieldList(m, names[..0]) == [] && FieldsCost([]) == 0
    ensures names[..|names|] == names
  {
  }

  lemma ScalarsOneMore(m: map<string, Scalar>, names: seq<string>, i: nat)
    requires i < |names| && Scalars(m, names[..i]) && names[i] in m
    ensures Scalars(m, names[..i + 1]) <==> ScalarAtom(m[names[i]]).Some?
    ensures ScalarAtom(m[names[i]]).None? ==> !Scalars(m, names)
    ensures ScalarAtom(m[names[i]]).Some? ==> FieldOf(m, names[i]) == Field(names[i], ScalarAtom(m[names[i]]).value)
  {
    hide ScalarAtom;
    var p := names[..i + 1];
    forall j | 0 <= j <= i && ScalarAtom(m[names[i]]).Some? ensures p[j] in m && ScalarAtom(m[p[j]]).Some? {
      if j < i { assert p[j] == names[..i][j]; }
    }
    assert p[i] == names[i];
  }

  /** The second loop of commandFields: print, charge, and stop at the first excess. */
  method ChargeFields(input: map<string, Scalar>, names: seq<string>, budget: nat, nodes: nat)
    returns (fields: Option<seq<Field>>, budget': nat, nodes': nat)
    requires forall i :: 0 <= i < |names| ==> names[i] in input
    ensures fields.Some? <==>
            Scalars(input, names)
            && (names != [] ==>
                  && budget + FieldsCost(FieldList(input, names)) <= MAX_BYTES
                  && nodes + |names| <= MAX_NODES)
    ensures fields.Some? ==>
            fields.value == FieldList(input, names)
            && budget' == budget + FieldsCost(fields.value) && nodes' == nodes + |names|
    ensures fields.Some? && budget <= MAX_BYTES && nodes <= MAX_NODES ==> budget' <= MAX_BYTES && nodes' <= MAX_NODES
  {
    hide ScalarAtom, FieldCost, Representable, Scalars, FieldList, FieldsCost, FieldOf;
    budget', nodes' := budget, nodes;
    var fs: seq<Field> := [];
    ScalarsStart(input, names);
    for i := 0 to |names|
      invariant Scalars(input, names[..i])
      invariant fs == FieldList(input, names[..i])
      invariant budget' == budget + FieldsCost(fs) && nodes' == nodes + i
      invariant i > 0 ==> budget' <= MAX_BYTES && nodes' <= MAX_NODES
    {
      var atom := ScalarAtom(input[names[i]]);
      ScalarsOneMore(input, names, i);
      if atom.None? { return None, budget', nodes'; }
      FieldListOneMore(input, names, i);
      CostGrows(input, names, i + 1);
      var f := Field(names[i], atom.value);
      budget' := budget' + FieldCost(f);
      nodes' := nodes' + 1;
      if budget' > MAX_BYTES || nodes' > MAX_NODES { return None, budget', nodes'; }
      fs := fs + [f];
    }
    return Some(fs), budget', nodes';
  }

  lemma NamesCover(m: map<string, Scalar>, names: seq<string>)
    requires names == SortedNames(m.Keys)
    ensures forall i :: 0 <= i < |names| ==> names[i] in m
    ensures Scalars(m, names) <==> forall k :: k in m ==> ScalarAtom(m[k]).Some?
  {
    hide ScalarAtom;
    forall i | 0 <= i < |names| ensures names[i] in m { assert names[i] in names; }
    forall k | k in m ensures k in names {}
  }

  /** commandFields: every name and scalar is checked before anything is printed. */
  method CommandFields(input: map<string, Scalar>, budget: nat, nodes: nat)
    returns (fields: Option<seq<Field>>, budget': nat, nodes': nat)
    ensures fields.Some? <==>
            FieldsOk(input) && (input != map[]
                ==> budget + FieldsCost(Fields(input)) <= MAX_BYTES && nodes + |input| <= MAX_NODES)
    ensures fields.Some? ==>
            fields.value == Fields(input) && budget' == budget + FieldsCost(Fields(input)) && nodes' == nodes + |input|
    ensures fields.Some? && budget <= MAX_BYTES && nodes <= MAX_NODES ==> budget' <= MAX_BYTES && nodes' <= MAX_NODES
  {
    hide Ident, ScalarAtom, FieldsCost, FieldList, Scalars;
    budget', nodes' := budget, nodes;
    if |input| > MAX_COLUMNS { return None, budget', nodes'; }
    var walked := WalkNames(input);
    if walked.None? { return None, budget', nodes'; }
    var names := walked.value;
    NamesCover(input, names);
    fields, budget', nodes' := ChargeFields(input, names, budget, nodes);
  }

  predicate ShapeOk(s: Step) {
    && Ident(s.table) && s.table != LEDGER_TABLE && |s.values| != 0
    && (s.operation == "insert" || s.operation == "update")
    && !(s.operation == "insert" && |s.keys| != 0) && !(s.operation == "update" && |s.keys| == 0)
  }

  predicate VersionOk(s: Step) {
    && (s.version.Some? ==>
          && Ident(s.version.value.column) && s.version.value.expected != MAX_INT64
          && s.version.value.column !in s.values && s.version.value.column !in s.keys)
    && OptionsValid(s.expectAffected, s.version)
    && (s.version.Some? ==> s.operation == "update")
  }

  lemma StepOkParts(s: Step)
    ensures StepOk(s) <==> ShapeOk(s) && FieldsOk(s.values) && FieldsOk(s.keys) && VersionOk(s) && KeysNotNull(s.keys)
    ensures ShapeOk(s) ==> s.values != map[]
  {
    hide Ident, FieldsOk, OptionsValid;
    assert |s.keys| == 0 <==> s.keys == map[];
    assert |s.values| == 0 <==> s.values == map[];
  }

  predicate KeysNotNull(keys: map<string, Scalar>) { forall k :: k in keys ==> keys[k] != Nil }

  method SnapshotKeys(s: Step, schema: string, vf: seq<Field>, kf: seq<Field>) returns (r: Option<Request>)
    requires vf == Fields(s.values) && kf == Fields(s.keys)
    ensures r.Some? <==> KeysNotNull(s.keys)
    ensures r.Some? ==> r.value == RequestOf(s, schema)
  {
    hide Fields, NamesOf;
    FieldNames(s.values);
    FieldNames(s.keys);
    ghost var names := SortedNames(s.keys.Keys);
    forall i | 0 <= i < |names| ensures names[i] in s.keys { assert names[i] in names; }
    var where := WhereValues(s.keys, NamesOf(kf));
    if where.None? { return None; }
    return Some(Request(s.operation, schema + "." + s.table, NamesOf(vf), s.values, NamesOf(kf), where.value,
           s.expectAffected, s.version));
  }

  datatype Snapshotted = Snapshotted(vf: seq<Field>, kf: seq<Field>, request: Request)

  method SnapshotStep(s: Step, hookName: nat, schema: string, budget: nat, nodes: nat)
    returns (r: Option<Snapshotted>, budget': nat, nodes': nat)
    ensures r.Some? <==>
            StepOk(s) && budget + StepCost(s, hookName) <= MAX_BYTES && nodes + |s.values| + |s.keys| <= MAX_NODES
    ensures r.Some? ==>
            && r.value == Snapshotted(Fields(s.values), Fields(s.keys), RequestOf(s, schema))
            && budget' == budget + StepCost(s, hookName) && nodes' == nodes + |s.values| + |s.keys|
  {
    hide Ident, FieldsOk, FieldsCost, Fields, Json.ByteLength, StepOk, ShapeOk, VersionOk, KeysNotNull, RequestOf;
    StepOkParts(s);
    r, budget', nodes' := None, budget, nodes;
    if !ShapeOk(s) { return; }
    budget' := budget' + Json.ByteLength(s.table) + Json.ByteLength(s.operation) + hookName;
    if budget' > MAX_BYTES { return; }
    var vf, kf;
    vf, budget', nodes' := CommandFields(s.values, budget', nodes');
    if vf.None? { return; }
    kf, budget', nodes' := CommandFields(s.keys, budget', nodes');
    if kf.None? { return; }
    if !VersionOk(s) { return; }
    var request := SnapshotKeys(s, schema, vf.value, kf.value);
    if request.None? { return; }
    r := Some(Snapshotted(vf.value, kf.value, request.value));
  }

  lemma {:induction false} NamesOfFieldList(m: map<string, Scalar>, names: seq<string>)
    requires forall i :: 0 <= i < |names| ==> names[i] in m
    ensures NamesOf(FieldList(m, names)) == names
  {
    hide ScalarAtom;
    if names != [] {
      var init := names[..|names| - 1];
      NamesOfFieldList(m, init);
      assert FieldList(m, names)[..|names| - 1] == FieldList(m, init) by { FieldListLength(m, init); }
      FieldListLength(m, names);
      assert names == init + [names[|names| - 1]];
    }
  }

  lemma {:induction false} FieldListLength(m: map<string, Scalar>, names: seq<string>)
    requires forall i :: 0 <= i < |names| ==> names[i] in m
    ensures |FieldList(m, names)| == |names|
  {
    hide FieldOf;
    if names != [] { FieldListLength(m, names[..|names| - 1]); }
  }

  lemma FieldNames(m: map<string, Scalar>)
    ensures NamesOf(Fields(m)) == SortedNames(m.Keys)
    ensures |Fields(m)| == |m|
  {
    hide FieldOf;
    var names := SortedNames(m.Keys);
    forall i | 0 <= i < |names| ensures names[i] in m { assert names[i] in names; }
    NamesOfFieldList(m, names);
    FieldListLength(m, names);
  }

  /** Key values in field order; a null equality key is refused. */
  method WhereValues(keys: map<string, Scalar>, names: seq<string>) returns (values: Option<seq<Scalar>>)
    requires forall i :: 0 <= i < |names| ==> names[i] in keys
    ensures values.Some? <==> forall k :: k in names ==> keys[k] != Nil
    ensures values.Some? ==> values.value == ValuesAt(keys, names)
  {
    var out: seq<Scalar> := [];
    for i := 0 to |names|
      invariant out == ValuesAt(keys, names[..i])
      invariant forall j :: 0 <= j < i ==> keys[names[j]] != Nil
    {
      if keys[names[i]] == Nil { return None; }
      out := out + [keys[names[i]]];
      assert names[..i + 1][..i] == names[..i];
    }
    assert names[..|names|] == names;
    return Some(out);
  }

  // -------------------------------------------------------------- whole commands

  lemma {:induction false} BudgetsGrow(c: Command, m: nat, n: nat)
    requires m <= n <= |AllSteps(c)|
    ensures BudgetUpTo(c, m) <= BudgetUpTo(c, n) && NodesUpTo(c, m) <= NodesUpTo(c, n)
  {
    hide StepCost, AllSteps;
    if m < n { BudgetsGrow(c, m, n - 1); }
  }

  /** Hooks become inserts of exactly one row behind the business steps. */
  method ExpandHooks(c: Command) returns (steps: Option<seq<Step>>)
    ensures steps.Some? <==> forall h :: h in c.hooks ==> Label(h.name)
    ensures steps.Some? ==> steps.value == AllSteps(c)
  {
    hide Label;
    var all := c.steps;
    for i := 0 to |c.hooks|
      invariant all == c.steps + HookSteps(c.hooks[..i])
      invariant forall j :: 0 <= j < i ==> Label(c.hooks[j].name)
    {
      if !Label(c.hooks[i].name) { return None; }
      all := all + [HookStep(c.hooks[i])];
      assert c.hooks[..i + 1][..i] == c.hooks[..i];
    }
    assert c.hooks[..|c.hooks|] == c.hooks;
    return Some(all);
  }

  predicate ExtendedStep(s: Step) { s.expectAffected.Some? || s.version.Some? }

  datatype Documents = Documents(v1: seq<Json.Value>, v2: seq<Json.Value>, hooks: seq<Json.Value>)

  /** The three documents after the first n of all steps. */
  ghost function DocumentsUpTo(c: Command, n: nat): Documents
    requires n <= |AllSteps(c)|
  {
    if n <= |c.steps| then Documents(StepDocs(c.steps[..n], true), StepDocs(c.steps[..n], false), [])
    else Documents(StepDocs(c.steps, true), StepDocs(c.steps, false), HookDocs(c.hooks[..n - |c.steps|]))
  }

  lemma DocumentsOneMore(c: Command, n: nat)
    requires n < |AllSteps(c)|
    ensures
      var s := AllSteps(c)[n];
      DocumentsUpTo(c, n + 1) == AppendDocuments(DocumentsUpTo(c, n), c, n, Fields(s.values), Fields(s.keys))
  {
    hide MembersV1, MembersV2, HookMembers, HookSteps, Fields, StepDocs, HookDocs;
    StepAt(c, n);
    if n < |c.steps| {
      StepDocsOneMore(c.steps, n, true);
      StepDocsOneMore(c.steps, n, false);
    } else {
      HookDocsOneMore(c.hooks, n - |c.steps|);
      assert c.steps[..|c.steps|] == c.steps && c.hooks[..0] == [];
      if n == |c.steps| { assert HookDocs([]) == [] by { NoHookDocs(); } }
    }
  }

  lemma StepDocsOneMore(steps: seq<Step>, n: nat, legacy: bool)
    requires n < |steps|
    ensures StepDocs(steps[..n + 1], legacy) == StepDocs(steps[..n], legacy) + [StepDoc(steps[n], legacy)]
  {
    hide StepDoc;
    assert steps[..n + 1][..n] == steps[..n];
  }

  lemma HookDocsOneMore(hooks: seq<Hook>, n: nat)
    requires n < |hooks|
    ensures HookDocs(hooks[..n + 1]) == HookDocs(hooks[..n]) + [HookDoc(hooks[n])]
  {
    hide HookDoc;
    assert hooks[..n + 1][..n] == hooks[..n];
  }

  lemma NoHookDocs()
    ensures HookDocs([]) == []
  {
  }

  lemma StepAt(c: Command, i: nat)
    requires i < |AllSteps(c)|
    ensures i < |c.steps| ==> AllSteps(c)[i] == c.steps[i]
    ensures i >= |c.steps| ==> AllSteps(c)[i] == HookStep(c.hooks[i - |c.steps|])
  {
    if i >= |c.steps| { HookStepsAt(c.hooks, i - |c.steps|); }
  }

  datatype Progress = Progress(docs: Documents, requests: seq<Request>, extended: bool)

  /** The loop of snapshotCommand over business steps and hooks alike. */
  method SnapshotSteps(c: Command, steps: seq<Step>, schema: string) returns (r: Option<Progress>)
    requires steps == AllSteps(c) && c.steps != []
    ensures r.Some? <==> StepsOk(c) && BudgetUpTo(c, |steps|) <= MAX_BYTES && NodesUpTo(c, |steps|) <= MAX_NODES
    ensures r.Some? ==>
            && r.value.requests == Requests(c, schema) && r.value.docs == DocumentsUpTo(c, |steps|)
            && r.value.extended == Extended(c)
  {
    hide StepOk, StepCost, RequestOf, Json.ByteLength, AllSteps, DocumentsUpTo, AppendDocuments, ExtendedStep,
         BudgetUpTo, NodesUpTo, RequestsUpTo, ExtendedUpTo, Fields;
    var docs := Documents([], [], []);
    DocumentsStart(c);
    SnapshotStart(c, schema);
    var requests: seq<Request> := [];
    var extended := false;
    var budget, nodes := Json.ByteLength(c.kind), 0;
    for i := 0 to |steps|
      invariant forall j :: 0 <= j < i ==> StepOk(steps[j])
      invariant budget == BudgetUpTo(c, i) && nodes == NodesUpTo(c, i)
      invariant i > 0 ==> budget <= MAX_BYTES && nodes <= MAX_NODES
      invariant requests == RequestsUpTo(c, schema, i)
      invariant docs == DocumentsUpTo(c, i)
      invariant extended == ExtendedUpTo(steps, i)
    {
      DocumentsOneMore(c, i);
      SnapshotOneMore(c, schema, i);
      BudgetsGrow(c, i + 1, |steps|);
      var one;
      one, budget, nodes := SnapshotStep(steps[i], HookNameCost(c, i), schema, budget, nodes);
      if one.None? {
        OneBadStep(c, i);
        return None;
      }
      extended := extended || ExtendedStep(steps[i]);
      docs := AppendDocuments(docs, c, i, one.value.vf, one.value.kf);
      requests := requests + [one.value.request];
    }
    ExtendedMeans(c, |steps|);
    AllStepsChecked(c);
    return Some(Progress(docs, requests, extended));
  }

  predicate ExtendedUpTo(steps: seq<Step>, n: nat)
    requires n <= |steps|
  {
    n > 0 && (ExtendedUpTo(steps, n - 1) || ExtendedStep(steps[n - 1]))
  }

  lemma SnapshotStart(c: Command, schema: string)
    ensures BudgetUpTo(c, 0) == Json.ByteLength(c.kind) && NodesUpTo(c, 0) == 0
    ensures RequestsUpTo(c, schema, 0) == [] && !ExtendedUpTo(AllSteps(c), 0)
  {
  }

  lemma SnapshotOneMore(c: Command, schema: string, n: nat)
    requires n < |AllSteps(c)|
    ensures var s := AllSteps(c)[n];
            && BudgetUpTo(c, n + 1) == BudgetUpTo(c, n) + StepCost(s, HookNameCost(c, n))
            && NodesUpTo(c, n + 1) == NodesUpTo(c, n) + |s.values| + |s.keys|
            && RequestsUpTo(c, schema, n + 1) == RequestsUpTo(c, schema, n) + [RequestOf(s, schema)]
            && (ExtendedUpTo(AllSteps(c), n + 1) <==> ExtendedUpTo(AllSteps(c), n) || ExtendedStep(s))
  {
    hide StepCost, RequestOf, AllSteps, HookNameCost, ExtendedStep;
  }

  lemma OneBadStep(c: Command, i: nat)
    requires i < |AllSteps(c)|
    ensures !StepOk(AllSteps(c)[i]) ==> !StepsOk(c)
  {
    hide StepOk, AllSteps;
    assert AllSteps(c)[i] in AllSteps(c);
  }

  lemma AllStepsChecked(c: Command)
    requires forall j :: 0 <= j < |AllSteps(c)| ==> StepOk(AllSteps(c)[j])
    ensures StepsOk(c)
  {
    hide StepOk, AllSteps;
  }

  lemma {:induction false} ExtendedAt(steps: seq<Step>, n: nat)
    requires n <= |steps|
    ensures ExtendedUpTo(steps, n) <==> exists j :: 0 <= j < n && ExtendedStep(steps[j])
  {
    hide ExtendedStep;
    if n > 0 { ExtendedAt(steps, n - 1); }
  }

  lemma ExtendedMeans(c: Command, n: nat)
    requires n == |AllSteps(c)|
    ensures ExtendedUpTo(AllSteps(c), n) == Extended(c)
  {
    hide AllSteps;
    var all := AllSteps(c);
    ExtendedAt(all, n);
    if ExtendedUpTo(all, n) {
      var j :| 0 <= j < n && ExtendedStep(all[j]);
      assert all[j] in all;
    }
  }

  /** snapshotCommand: accepts exactly the accepted commands, and prints them canonically. */
  method SnapshotCommand(c: Command, schema: string) returns (r: Option<(Json.Value, seq<Request>)>)
    ensures r.Some? <==> Accepts(c)
    ensures r.Some? ==> r.value == (Canonical(c), Requests(c, schema))
  {
    hide Label, Uuid, StepsOk, BudgetUpTo, NodesUpTo, StepDocs, HookDocs, RequestsUpTo, Json.TextLength, AllSteps,
         Extended;
    if !Uuid(c.id) || !Label(c.kind) || |c.steps| == 0 || |c.steps| > MAX_STEPS || |c.hooks| > MAX_STEPS - |c.steps| {
      return None;
    }
    var expanded := ExpandHooks(c);
    if expanded.None? { return None; }
    var done := SnapshotSteps(c, expanded.value, schema);
    if done.None? { return None; }
    var p := done.value;
    assert c.steps[..|c.steps|] == c.steps && c.hooks[..|c.hooks|] == c.hooks && c.hooks[..0] == [];
    DocumentsEnd(c);
    var version := if |c.hooks| != 0 then 3 else if p.extended then 2 else 1;
    var doc := Document(version, c.kind, if version == 1 then p.docs.v1 else p.docs.v2, p.docs.hooks);
    if Json.TextLength(doc) > MAX_BYTES { return None; }
    return Some((doc, p.requests));
  }

  lemma DocumentsEnd(c: Command)
    ensures DocumentsUpTo(c, |AllSteps(c)|)
            == Documents(StepDocs(c.steps, true), StepDocs(c.steps, false), HookDocs(c.hooks))
  {
    hide StepDoc, HookDoc, HookSteps;
    assert c.steps[..|c.steps|] == c.steps && c.hooks[..|c.hooks|] == c.hooks && c.hooks[..0] == [];
    if c.hooks == [] { assert HookDocs(c.hooks) == []; }
  }

  lemma DocumentsStart(c: Command)
    ensures DocumentsUpTo(c, 0) == Documents([], [], [])
  {
  }

  function AppendDocuments(d: Documents, c: Command, i: nat, vf: seq<Field>, kf: seq<Field>): Documents
    requires i < |c.steps| + |c.hooks|
  {
    if i < |c.steps| then
      var s := c.steps[i];
      d.(v1 := d.v1 + [Json.Obj(MembersV1(s.operation, s.table, vf, kf))],
         v2 := d.v2 + [Json.Obj(MembersV2(s.operation, s.table, vf, kf, s.expectAffected, s.version))])
    else
      var h := c.hooks[i - |c.steps|];
      d.(hooks := d.hooks + [Json.Obj(HookMembers(h.name, h.table, vf))])
  }

  // -------------------------------------------------------------- reading it back

  /** commandDecodeFields: the first bad atom or repeated name refuses the list. */
  method CommandDecodeFields(fields: seq<Json.Value>) returns (out: Option<map<string, Scalar>>)
    ensures out == DecodeFields(fields)
  {
    hide DecodeField, DecodeAtom;
    var m: map<string, Scalar> := map[];
    var i := 0;
    while i < |fields|
      invariant 0 <= i <= |fields|
      invariant DecodeFields(fields[..i]) == Some(m)
    {
      FieldsOneMore(fields, i);
      var f := DecodeField(fields[i]);
      if f.None? { DecodingFails(fields, i + 1); return None; }
      var x := DecodeAtom(f.value.atom);
      if x.None? || f.value.name in m { DecodingFails(fields, i + 1); return None; }
      m := m[f.value.name := x.value];
      i := i + 1;
    }
    assert fields[..|fields|] == fields;
    return Some(m);
  }

  lemma FieldsOneMore(fields: seq<Json.Value>, i: nat)
    requires i < |fields|
    ensures fields[..i + 1][..|fields[..i + 1]| - 1] == fields[..i] && fields[..i + 1] != []
  {
  }

  lemma {:induction false} DecodingFails(fields: seq<Json.Value>, n: nat)
    requires n <= |fields| && DecodeFields(fields[..n]).None?
    ensures DecodeFields(fields).None?
    decreases |fields| - n
  {
    hide DecodeField, DecodeAtom;
    if n < |fields| {
      FieldsOneMore(fields, n);
      DecodingFails(fields, n + 1);
    } else {
      assert fields[..n] == fields;
    }
  }

  /** commandFingerprint: only a text that prints back to itself has a fingerprint. */
  method CommandFingerprint(doc: Json.Value) returns (r: Option<Digest>)
    ensures r == Fingerprint(doc)
  {
    hide Decode, Accepts, Canonical, Json.TextLength, DocVersion, Requests;
    if Json.TextLength(doc) > MAX_BYTES { return None; }
    var c := Decode(doc);
    if c.None? { return None; }
    var normalized := SnapshotCommand(c.value, "public");
    if normalized.None? || normalized.value.0 != doc { return None; }
    return Some(Digest(DocVersion(c.value), doc));
  }
}
