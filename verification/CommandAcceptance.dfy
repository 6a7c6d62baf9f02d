/** Which commands snapshotCommand accepts, read off the command itself. */
module CommandAcceptance {
  import opened Text
  import Json
  import opened CommandInput

  /** A scalar of the documented domain: no float, no unsigned above 2^63 - 1. */
  predicate Storable(v: Scalar) {
    match v
    case Nil => true
    case Boolean(_) => true
    case Text(s) => Json.ByteLength(s) <= 1048576
    case Integer(t, n) => t in {GoInt, GoInt8, GoInt16, GoInt32, GoInt64} || n <= 0x7fff_ffff_ffff_ffff
    case Number(s) => |s| <= 20 && IntegerLexeme(s) && ParseInt(s, 64).Some?
    case Unsupported => false
  }

  predicate FieldsAllowed(m: map<string, Scalar>) {
    |m| <= 256 && forall k :: k in m ==> Ident(k) && Storable(m[k])
  }

  /** A write of the business tables: values, keys exactly for updates, none of them null. */
  predicate StepAllowed(s: Step) {
    && Ident(s.table) && s.table != "goquent_commands_v1" && s.values != map[]
    && ((s.operation == "insert" && s.keys == map[]) || (s.operation == "update" && s.keys != map[]))
    && FieldsAllowed(s.values) && FieldsAllowed(s.keys) && (forall k :: k in s.keys ==> s.keys[k] != Nil)
    && (s.expectAffected.Some? ==> s.expectAffected.value >= 0)
    && (s.version.Some? ==>
          && s.operation == "update" && Ident(s.version.value.column)
          && 0 <= s.version.value.expected < 0x7fff_ffff_ffff_ffff
          && s.version.value.column !in s.values && s.version.value.column !in s.keys
          && (s.expectAffected.Some? ==> s.expectAffected.value == 1))
  }

  predicate HookAllowed(h: Hook) {
    && Label(h.name) && Ident(h.table) && h.table != "goquent_commands_v1" && h.values != map[]
       && FieldsAllowed(h.values)
  }

  lemma StorableMeans(v: Scalar)
    ensures ScalarAtom(v).Some? <==> Storable(v)
  {
    hide IntegerLexeme, ParseInt;
  }

  lemma FieldsMean(m: map<string, Scalar>)
    ensures FieldsOk(m) <==> FieldsAllowed(m)
  {
    hide ScalarAtom, Storable, Ident;
    forall k | k in m ensures ScalarAtom(m[k]).Some? <==> Storable(m[k]) { StorableMeans(m[k]); }
  }

  lemma StepMeans(s: Step)
    ensures StepOk(s) <==> StepAllowed(s)
  {
    hide FieldsOk, FieldsAllowed;
    FieldsMean(s.values);
    FieldsMean(s.keys);
    IdentIsName("");
  }

  lemma IdentIsName(s: string)
    ensures Ident(s) ==> s != ""
  {
  }

  lemma HookMeans(h: Hook)
    requires Label(h.name)
    ensures StepOk(HookStep(h)) <==> HookAllowed(h)
  {
    hide FieldsOk, FieldsAllowed, Label;
    FieldsMean(h.values);
    FieldsMean(map[]);
    NoFields();
  }

  lemma NoFields()
    ensures FieldsAllowed(map[])
  {
  }

  // ----------------------------------------------------------------------- budgets

  function AtomBytes(v: Scalar): nat {
    if ScalarAtom(v).Some? then
      Json.ByteLength(ScalarAtom(v).value.value) + Json.ByteLength(ScalarAtom(v).value.typ)
    else 0
  }

  /** Names and printed values with their types. */
  function NamedBytes(m: map<string, Scalar>, names: seq<string>): nat
    requires forall x :: x in names ==> x in m
  {
    if names == [] then 0
    else
      var last := names[|names| - 1];
      NamedBytes(m, names[..|names| - 1]) + Json.ByteLength(last) + AtomBytes(m[last])
  }

  ghost function FieldBytes(m: map<string, Scalar>): nat { NamedBytes(m, SortedNames(m.Keys)) }

  ghost function StepsBytes(steps: seq<Step>): nat {
    if steps == [] then 0
    else
      var s := steps[|steps| - 1];
      StepsBytes(steps[..|steps| - 1]) + Json.ByteLength(s.table) + Json.ByteLength(s.operation)
      + FieldBytes(s.values) + FieldBytes(s.keys)
  }

  /** A hook is charged its name, its table, the word "insert" and its fields. */
  ghost function HooksBytes(hooks: seq<Hook>): nat {
    if hooks == [] then 0
    else
      var h := hooks[|hooks| - 1];
      HooksBytes(hooks[..|hooks| - 1]) + Json.ByteLength(h.name) + Json.ByteLength(h.table) + 6 + FieldBytes(h.values)
  }

  function StepsFields(steps: seq<Step>): nat {
    if steps == [] then 0
    else StepsFields(steps[..|steps| - 1]) + |steps[|steps| - 1].values| + |steps[|steps| - 1].keys|
  }

  function HooksFields(hooks: seq<Hook>): nat {
    if hooks == [] then 0 else HooksFields(hooks[..|hooks| - 1]) + |hooks[|hooks| - 1].values|
  }

  lemma {:induction false} ListBytes(m: map<string, Scalar>, names: seq<string>)
    requires forall x :: x in names ==> x in m
    ensures FieldsCost(FieldList(m, names)) == NamedBytes(m, names)
  {
    hide ScalarAtom, Json.ByteLength;
    if names != [] {
      var n := |names| - 1;
      ListBytes(m, names[..n]);
      var list := FieldList(m, names);
      assert list[..|list| - 1] == FieldList(m, names[..n]);
      NoBytes();
    }
  }

  lemma {:induction false} AsciiBytes(s: string)
    requires forall i :: 0 <= i < |s| ==> s[i] as int < 128
    ensures Json.ByteLength(s) == |s|
  {
    if s != "" { AsciiBytes(s[..|s| - 1]); }
  }

  lemma NoBytes()
    ensures Json.ByteLength("") == 0 && Json.ByteLength("insert") == 6
  {
    AsciiBytes("insert");
  }

  lemma FieldsAreCharged(m: map<string, Scalar>)
    ensures FieldsCost(Fields(m)) == FieldBytes(m)
  {
    hide FieldsCost, NamedBytes;
    var names := SortedNames(m.Keys);
    assert forall i :: 0 <= i < |names| ==> names[i] in names;
    ListBytes(m, names);
  }

  lemma EmptyFields()
    ensures FieldBytes(map[]) == 0
  {
  }

  lemma {:induction false} StepsAreCharged(c: Command, n: nat)
    requires n <= |c.steps|
    ensures BudgetUpTo(c, n) == Json.ByteLength(c.kind) + StepsBytes(c.steps[..n])
    ensures NodesUpTo(c, n) == StepsFields(c.steps[..n])
  {
    hide Json.ByteLength, Fields, FieldsCost, FieldBytes, HookSteps;
    if n > 0 {
      StepsAreCharged(c, n - 1);
      assert c.steps[..n][..n - 1] == c.steps[..n - 1];
      FieldsAreCharged(c.steps[n - 1].values);
      FieldsAreCharged(c.steps[n - 1].keys);
    }
  }

  lemma {:induction false} HooksAreCharged(c: Command, n: nat)
    requires n <= |c.hooks|
    ensures var k := |c.steps| + n;
            && BudgetUpTo(c, k) == Json.ByteLength(c.kind) + StepsBytes(c.steps) + HooksBytes(c.hooks[..n])
            && NodesUpTo(c, k) == StepsFields(c.steps) + HooksFields(c.hooks[..n])
  {
    hide Json.ByteLength, Fields, FieldsCost, FieldBytes, HookSteps, StepsBytes, StepsFields;
    if n == 0 {
      assert c.steps[..|c.steps|] == c.steps && c.hooks[..0] == [];
      StepsAreCharged(c, |c.steps|);
    } else {
      HooksAreCharged(c, n - 1);
      assert c.hooks[..n][..n - 1] == c.hooks[..n - 1];
      HookStepsAt(c.hooks, n - 1);
      FieldsAreCharged(c.hooks[n - 1].values);
      FieldsAreCharged(map[]);
      EmptyFields();
      NoBytes();
    }
  }

  /** Both budgets are sums over the command's own parts. */
  lemma BudgetsAre(c: Command)
    ensures BudgetUpTo(c, |AllSteps(c)|) == Json.ByteLength(c.kind) + StepsBytes(c.steps) + HooksBytes(c.hooks)
    ensures NodesUpTo(c, |AllSteps(c)|) == StepsFields(c.steps) + HooksFields(c.hooks)
  {
    hide BudgetUpTo, NodesUpTo, StepsBytes, HooksBytes, StepsFields, HooksFields, Json.ByteLength, HookSteps;
    assert c.hooks[..|c.hooks|] == c.hooks;
    HooksAreCharged(c, |c.hooks|);
  }

  /** Accepted are exactly commands with a canonical UUID and a label, 1 to 64 statements
      in all, allowed steps and hooks, and a size within the byte and node budgets. */
  lemma AcceptedExactly(c: Command)
    ensures Accepts(c) <==>
            && Uuid(c.id) && Label(c.kind) && 1 <= |c.steps| && |c.steps| + |c.hooks| <= 64
            && (forall k :: 0 <= k < |c.steps| ==> StepAllowed(c.steps[k]))
            && (forall k :: 0 <= k < |c.hooks| ==> HookAllowed(c.hooks[k]))
            && Json.ByteLength(c.kind) + StepsBytes(c.steps) + HooksBytes(c.hooks) <= 1048576
            && StepsFields(c.steps) + HooksFields(c.hooks) <= 16384
            && Json.TextLength(Canonical(c)) <= 1048576
  {
    hide StepOk, StepAllowed, HookAllowed, BudgetUpTo, NodesUpTo, Canonical, Json.TextLength, Uuid, Label,
         StepsOk, AllSteps, StepsBytes, HooksBytes, StepsFields, HooksFields, Json.ByteLength;
    BudgetsAre(c);
    forall k | 0 <= k < |c.steps| ensures StepOk(c.steps[k]) <==> StepAllowed(c.steps[k]) { StepMeans(c.steps[k]); }
    HooksMean(c);
    LabelsAgree(c);
    StepsInAll(c);
  }

  lemma LabelsAgree(c: Command)
    ensures (forall h :: h in c.hooks ==> Label(h.name)) <==>
            forall k :: 0 <= k < |c.hooks| ==> Label(c.hooks[k].name)
  {
    hide Label;
  }

  lemma HooksMean(c: Command)
    ensures forall k :: 0 <= k < |c.hooks| ==>
              (HookAllowed(c.hooks[k]) <==> Label(c.hooks[k].name) && StepOk(HookStep(c.hooks[k])))
  {
    hide StepOk, Label, FieldsAllowed;
    forall k | 0 <= k < |c.hooks| && Label(c.hooks[k].name)
      ensures StepOk(HookStep(c.hooks[k])) <==> HookAllowed(c.hooks[k])
    {
      HookMeans(c.hooks[k]);
    }
  }

  lemma StepsInAll(c: Command)
    ensures StepsOk(c) <==>
            && (forall k :: 0 <= k < |c.steps| ==> StepOk(c.steps[k]))
            && (forall k :: 0 <= k < |c.hooks| ==> StepOk(HookStep(c.hooks[k])))
  {
    hide StepOk, HookStep;
    var all := AllSteps(c);
    forall k | 0 <= k < |c.steps| ensures all[k] == c.steps[k] && all[k] in all {}
    forall k | 0 <= k < |c.hooks| ensures all[|c.steps| + k] == HookStep(c.hooks[k]) && HookStep(c.hooks[k]) in all {
      HookStepsAt(c.hooks, k);
    }
    forall s | s in all ensures (exists k :: 0 <= k < |c.steps| && s == c.steps[k])
                                || (exists k :: 0 <= k < |c.hooks| && s == HookStep(c.hooks[k])) {
      var k :| 0 <= k < |all| && all[k] == s;
      if k >= |c.steps| { assert s == HookStep(c.hooks[k - |c.steps|]); }
    }
  }

  predicate Letter(c: char) { 'a' <= c <= 'z' || 'A' <= c <= 'Z' || '0' <= c <= '9' }

  /** Identifiers: a lower-case letter and up to 62 of those, digits and underscores.
      Labels: a letter or digit and up to 127 of those and "_.:-". Command IDs: eight, four,
      four, four and twelve lower-case hexadecimal digits, version 1 to 8, variant 8 to b. */
  lemma NamesExactly(s: string)
    ensures Ident(s) <==>
            && 1 <= |s| <= 63 && 'a' <= s[0] <= 'z'
            && forall i :: 1 <= i < |s| ==> 'a' <= s[i] <= 'z' || '0' <= s[i] <= '9' || s[i] == '_'
    ensures Label(s) <==>
            && 1 <= |s| <= 128 && Letter(s[0])
            && forall i :: 1 <= i < |s| ==> Letter(s[i]) || s[i] in {'_', '.', ':', '-'}
    ensures Uuid(s) <==>
            && |s| == 36
            && (forall i :: 0 <= i < 36 ==>
                  if i in {8, 13, 18, 23} then s[i] == '-' else '0' <= s[i] <= '9' || 'a' <= s[i] <= 'f')
            && s[14] in {'1', '2', '3', '4', '5', '6', '7', '8'} && s[19] in {'8', '9', 'a', 'b'}
  {
  }
}
