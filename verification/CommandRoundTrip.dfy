/** The canonical command document loses nothing but the ID: decoding undoes
    printing, so equal documents mean equal commands and equal statements. */
module CommandRoundTrip {
  import opened Text
  import Json
  import opened CommandInput

  lemma FieldDocRoundTrip(f: Field)
    ensures DecodeField(FieldDoc(f)) == Some(f)
  {
    var ms := FieldDoc(f).members;
    Json.LookupFinds(ms, 0);
    Json.LookupFinds(ms, 1);
    var am := ms[1].value.members;
    Json.LookupFinds(am, 0);
    Json.LookupFinds(am, 1);
  }

  lemma DecodeOneMore(vs: seq<Json.Value>, v: Json.Value, m: map<string, Scalar>, f: Field, x: Scalar)
    requires DecodeFields(vs) == Some(m) && DecodeField(v) == Some(f) && DecodeAtom(f.atom) == Some(x) && f.name !in m
    ensures DecodeFields(vs + [v]) == Some(m[f.name := x])
  {
    assert (vs + [v])[..|vs|] == vs;
  }

  function Restrict(m: map<string, Scalar>, names: seq<string>): map<string, Scalar> {
    map k | k in m && k in names :: m[k]
  }

  lemma RestrictOneMore(m: map<string, Scalar>, names: seq<string>)
    requires names != [] && names[|names| - 1] in m
    ensures Restrict(m, names) == Restrict(m, names[..|names| - 1])[names[|names| - 1] := m[names[|names| - 1]]]
  {
    assert names == names[..|names| - 1] + [names[|names| - 1]];
  }

  lemma {:induction false} FieldListRoundTrip(m: map<string, Scalar>, names: seq<string>)
    requires SortedBy(names, Self)
    requires forall i :: 0 <= i < |names| ==> names[i] in m && ScalarAtom(m[names[i]]).Some?
    ensures DecodeFields(FieldDocs(FieldList(m, names))) == Some(Restrict(m, names))
  {
    if names != [] {
      var init, k := names[..|names| - 1], names[|names| - 1];
      FieldListRoundTrip(m, init);
      var f := FieldOf(m, k);
      FieldDocRoundTrip(f);
      AtomRoundTrip(m[k]);
      LessIrreflexive(k);
      assert k !in init;
      assert FieldList(m, names) == FieldList(m, init) + [f];
      FieldDocsOneMore(FieldList(m, init), f);
      DecodeOneMore(FieldDocs(FieldList(m, init)), FieldDoc(f), Restrict(m, init), f, m[k]);
      RestrictOneMore(m, names);
    }
  }

  lemma FieldDocsOneMore(fs: seq<Field>, f: Field)
    ensures FieldDocs(fs + [f]) == FieldDocs(fs) + [FieldDoc(f)]
  {
    assert (fs + [f])[..|fs|] == fs;
  }

  lemma FieldsRoundTrip(m: map<string, Scalar>)
    requires FieldsOk(m)
    ensures DecodeFields(FieldDocs(Fields(m))) == Some(m)
  {
    var names := SortedNames(m.Keys);
    forall i | 0 <= i < |names| ensures names[i] in m { assert names[i] in names; }
    FieldListRoundTrip(m, names);
    assert Restrict(m, names) == m;
  }

  /** Looking up the members of one printed step, version 1 or later. */
  lemma StepMembers(op: string, table: string, values: Json.Value, keys: Json.Value, rest: seq<Json.Member>,
      ms: seq<Json.Member>)
    requires ms == [Json.Member("Operation", Json.Str(op)), Json.Member("Table", Json.Str(table)),
                    Json.Member("Values", values), Json.Member("Keys", keys)] + rest
    requires forall i :: 0 <= i < |rest| ==> rest[i].name == "ExpectAffected" || rest[i].name == "Version"
    ensures Json.StringField(ms, "Operation") == Some(op) && Json.StringField(ms, "Table") == Some(table)
    ensures Json.Lookup(ms, "Values") == Some(values) && Json.Lookup(ms, "Keys") == Some(keys)
  {
    assert forall i :: 4 <= i < |ms| ==> ms[i] == rest[i - 4];
    Json.LookupFinds(ms, 0);
    Json.LookupFinds(ms, 1);
    Json.LookupFinds(ms, 2);
    Json.LookupFinds(ms, 3);
  }

  lemma StepRoundTripV1(s: Step)
    requires StepOk(s)
    ensures DecodeStep(StepDocV1(s), 1) == Some(s.(expectAffected := None, version := None))
  {
    hide Fields, FieldsOk, Json.Lookup;
    var ms := StepDocV1(s).members;
    FieldsRoundTrip(s.values);
    FieldsRoundTrip(s.keys);
    StepMembers(s.operation, s.table, Json.Arr(FieldDocs(Fields(s.values))), Json.Arr(FieldDocs(Fields(s.keys))), [],
        ms);
  }

  lemma VersionRoundTrip(ms: seq<Json.Member>, v: Option<Version>)
    requires Json.Lookup(ms, "Version") == Some(VersionDoc(v))
    ensures DecodeVersion(ms) == Some(v)
  {
    if v.Some? {
      var vm := VersionDoc(v).members;
      Json.LookupFinds(vm, 0);
      Json.LookupFinds(vm, 1);
    }
  }

  lemma ExpectationMembers(s: Step, ms: seq<Json.Member>)
    requires |ms| == 6
    requires ms[4] == Json.Member("ExpectAffected", ExpectDoc(s.expectAffected))
    requires ms[5] == Json.Member("Version", VersionDoc(s.version))
    ensures Json.Lookup(ms, "ExpectAffected") == Some(ExpectDoc(s.expectAffected))
    ensures Json.Lookup(ms, "Version") == Some(VersionDoc(s.version))
  {
    Json.LookupFinds(ms, 4);
    Json.LookupFinds(ms, 5);
  }

  lemma StepRoundTripV2(s: Step, version: int)
    requires StepOk(s) && version != 1
    ensures DecodeStep(StepDocV2(s), version) == Some(s)
  {
    hide Fields, FieldsOk, Json.Lookup, VersionDoc, ExpectDoc, DecodeVersion, DecodeFields, FieldDocs;
    var ms := StepDocV2(s).members;
    FieldsRoundTrip(s.values);
    FieldsRoundTrip(s.keys);
    var rest := [Json.Member("ExpectAffected", ExpectDoc(s.expectAffected)),
        Json.Member("Version", VersionDoc(s.version))];
    StepMembers(s.operation, s.table, Json.Arr(FieldDocs(Fields(s.values))), Json.Arr(FieldDocs(Fields(s.keys))),
        rest, ms);
    ExpectationMembers(s, ms);
    VersionRoundTrip(ms, s.version);
    ExpectRoundTrip(ms, s.expectAffected);
  }

  lemma ExpectRoundTrip(ms: seq<Json.Member>, e: Option<Int64>)
    requires Json.Lookup(ms, "ExpectAffected") == Some(ExpectDoc(e))
    ensures DecodeExpect(ms) == Some(e)
  {
  }

  lemma DecodeOneMoreStep(vs: seq<Json.Value>, v: Json.Value, version: int, ss: seq<Step>, s: Step)
    requires DecodeSteps(vs, version) == Some(ss) && DecodeStep(v, version) == Some(s)
    ensures DecodeSteps(vs + [v], version) == Some(ss + [s])
  {
    assert (vs + [v])[..|vs|] == vs;
  }

  ghost predicate Printable(steps: seq<Step>, version: int) {
    forall i :: 0 <= i < |steps|
        ==> StepOk(steps[i]) && (version == 1 ==> steps[i].expectAffected.None? && steps[i].version.None?)
  }

  lemma {:induction false} StepsRoundTrip(steps: seq<Step>, version: int)
    requires Printable(steps, version)
    ensures DecodeSteps(StepDocs(steps, version == 1), version) == Some(steps)
  {
    hide StepOk, StepDocV1, StepDocV2, DecodeStep;
    if steps != [] {
      var init, s := steps[..|steps| - 1], steps[|steps| - 1];
      StepsRoundTrip(init, version);
      var v := StepDoc(s, version == 1);
      if version == 1 { StepRoundTripV1(s); } else { StepRoundTripV2(s, version); }
      DecodeOneMoreStep(StepDocs(init, version == 1), v, version, init, s);
      assert steps == init + [s];
    }
  }

  lemma HookRoundTrip(h: Hook)
    requires FieldsOk(h.values)
    ensures DecodeHook(HookDoc(h)) == Some(h)
  {
    hide Fields, FieldsOk;
    var ms := HookDoc(h).members;
    FieldsRoundTrip(h.values);
    Json.LookupFinds(ms, 0);
    Json.LookupFinds(ms, 1);
    Json.LookupFinds(ms, 2);
  }

  lemma DecodeOneMoreHook(vs: seq<Json.Value>, v: Json.Value, hs: seq<Hook>, h: Hook)
    requires DecodeHooks(vs) == Some(hs) && DecodeHook(v) == Some(h)
    ensures DecodeHooks(vs + [v]) == Some(hs + [h])
  {
    assert (vs + [v])[..|vs|] == vs;
  }

  lemma {:induction false} HooksRoundTrip(hooks: seq<Hook>)
    requires forall i :: 0 <= i < |hooks| ==> FieldsOk(hooks[i].values)
    ensures DecodeHooks(HookDocs(hooks)) == Some(hooks)
  {
    hide FieldsOk, HookDoc, DecodeHook;
    if hooks != [] {
      var init, h := hooks[..|hooks| - 1], hooks[|hooks| - 1];
      HooksRoundTrip(init);
      HookRoundTrip(h);
      DecodeOneMoreHook(HookDocs(init), HookDoc(h), init, h);
      assert hooks == init + [h];
    }
  }

  lemma StepsOkParts(c: Command)
    requires StepsOk(c)
    ensures forall i :: 0 <= i < |c.steps| ==> StepOk(c.steps[i])
    ensures forall i :: 0 <= i < |c.hooks| ==> FieldsOk(c.hooks[i].values)
  {
    var all := AllSteps(c);
    forall i | 0 <= i < |c.steps| ensures StepOk(c.steps[i]) { assert all[i] in all; }
    forall i | 0 <= i < |c.hooks| ensures FieldsOk(c.hooks[i].values) {
      HookStepsAt(c.hooks, i);
      assert all[|c.steps| + i] in all;
    }
  }

  /** Decoding the canonical document gives back every step and hook, in order and typed. */
  lemma DecodeUndoesCanonical(c: Command)
    requires StepsOk(c)
    ensures Decode(Canonical(c)) == Some(c.(id := PLACEHOLDER_ID))
  {
    hide StepOk, FieldsOk, StepDocs, DecodeSteps, HookDoc, DecodeHook;
    StepsOkParts(c);
    var v := DocVersion(c);
    var ms := Canonical(c).members;
    Json.LookupFinds(ms, 0);
    Json.LookupFinds(ms, 1);
    Json.LookupFinds(ms, 2);
    if v == 3 { Json.LookupFinds(ms, 3); }
    if v == 1 {
      forall i | 0 <= i < |c.steps| ensures c.steps[i].expectAffected.None? && c.steps[i].version.None? {
        assert AllSteps(c)[i] in AllSteps(c);
      }
    }
    StepsRoundTrip(c.steps, v);
    HooksRoundTrip(c.hooks);
  }

  lemma PlaceholderIsAnId()
    ensures Uuid(PLACEHOLDER_ID)
  {
  }

  /** Nothing but the ID check looks at the ID. */
  lemma AcceptanceIgnoresId(c: Command, id: string)
    ensures AllSteps(c.(id := id)) == AllSteps(c)
    ensures Canonical(c.(id := id)) == Canonical(c)
    ensures Accepts(c) && Uuid(id) ==> Accepts(c.(id := id))
  {
    hide Json.TextLength, StepOk, BudgetUpTo, NodesUpTo, StepDocs, HookDocs;
    var d := c.(id := id);
    assert AllSteps(d) == AllSteps(c);
    BudgetIgnoresId(c, id, |AllSteps(c)|);
  }

  lemma {:induction false} BudgetIgnoresId(c: Command, id: string, n: nat)
    requires n <= |AllSteps(c)|
    requires AllSteps(c.(id := id)) == AllSteps(c)
    ensures BudgetUpTo(c.(id := id), n) == BudgetUpTo(c, n)
    ensures NodesUpTo(c.(id := id), n) == NodesUpTo(c, n)
  {
    hide StepCost, Json.ByteLength;
    if n > 0 { BudgetIgnoresId(c, id, n - 1); }
  }

  /** Every document an accepted command prints is accepted back, with its own digest. */
  lemma AcceptedDocumentsFingerprint(c: Command)
    requires Accepts(c)
    ensures Fingerprint(Canonical(c)) == Some(Digest(DocVersion(c), Canonical(c)))
  {
    hide Json.TextLength, Canonical, StepOk, BudgetUpTo, NodesUpTo, Decode;
    DecodeUndoesCanonical(c);
    PlaceholderIsAnId();
    AcceptanceIgnoresId(c, PLACEHOLDER_ID);
  }

  /** A stored document has a fingerprint exactly when some accepted command prints it. */
  lemma FingerprintMeansCanonical(doc: Json.Value)
    ensures Fingerprint(doc).Some? <==> exists c :: Accepts(c) && Canonical(c) == doc
  {
    hide Json.TextLength, Canonical, Accepts;
    if Fingerprint(doc).Some? {
      assert Accepts(Decode(doc).value) && Canonical(Decode(doc).value) == doc;
    }
    if c :| Accepts(c) && Canonical(c) == doc { AcceptedDocumentsFingerprint(c); }
  }

  /** Equal documents, equal commands up to the ID; across all three versions. */
  lemma SameDocumentSameCommand(c: Command, d: Command)
    requires Accepts(c) && Accepts(d)
    ensures Canonical(c) == Canonical(d) <==> c.(id := d.id) == d
  {
    hide Canonical, Decode, StepsOk, BudgetUpTo, NodesUpTo;
    DecodeUndoesCanonical(c);
    DecodeUndoesCanonical(d);
    AcceptanceIgnoresId(c, d.id);
  }

  lemma {:induction false} RequestsIgnoreId(c: Command, id: string, schema: string, n: nat)
    requires n <= |AllSteps(c)|
    requires AllSteps(c.(id := id)) == AllSteps(c)
    ensures RequestsUpTo(c.(id := id), schema, n) == RequestsUpTo(c, schema, n)
  {
    hide RequestOf;
    if n > 0 { RequestsIgnoreId(c, id, schema, n - 1); }
  }

  /** The stored document determines every statement that will be dispatched. */
  lemma SameDocumentSameRequests(c: Command, d: Command, schema: string)
    requires Accepts(c) && Accepts(d) && Canonical(c) == Canonical(d)
    ensures Requests(c, schema) == Requests(d, schema)
  {
    hide Canonical, Accepts, RequestsUpTo;
    SameDocumentSameCommand(c, d);
    AcceptanceIgnoresId(c, d.id);
    RequestsIgnoreId(c, d.id, schema, |AllSteps(c)|);
  }
}
