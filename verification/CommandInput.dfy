/** orm/command_input.go: the finite command input, its canonical document in
    versions 1, 2 and 3, and the decoder that must undo it exactly. */
module CommandInput {
  import opened Text
  import Json

  const MAX_BYTES := 1048576
  const MAX_STEPS := 64
  const MAX_COLUMNS := 256
  const MAX_NODES := 16384
  const MAX_INT64 := POW63 - 1
  const LEDGER_TABLE := "goquent_commands_v1"
  const PLACEHOLDER_ID := "00000000-0000-4000-8000-000000000001"

  type Int64 = n: int | -POW63 <= n < POW63

  // ------------------------------------------------------------- lexical classes

  predicate IdentChar(c: char) { IsLower(c) || IsDigit(c) || c == '_' }

  /** ^[a-z][a-z0-9_]{0,62}$ */
  predicate Ident(s: string) {
    1 <= |s| <= 63 && IsLower(s[0]) && forall i :: 1 <= i < |s| ==> IdentChar(s[i])
  }

  predicate AlphaNum(c: char) { IsLower(c) || IsUpper(c) || IsDigit(c) }

  /** ^[A-Za-z0-9][A-Za-z0-9_.:-]{0,127}$ */
  predicate Label(s: string) {
    1 <= |s| <= 128 && AlphaNum(s[0])
    && forall i :: 1 <= i < |s| ==> AlphaNum(s[i]) || s[i] in "_.:-"
  }

  predicate Hex(c: char) { IsDigit(c) || 'a' <= c <= 'f' }

  /** The lowercase canonical UUID with version nibble 1..8 and the RFC variant. */
  predicate Uuid(s: string) {
    |s| == 36
    && s[8] == '-' && s[13] == '-' && s[18] == '-' && s[23] == '-'
    && (forall i :: 0 <= i < 36 && i != 8 && i != 13 && i != 18 && i != 23 ==> Hex(s[i]))
    && '1' <= s[14] <= '8' && s[19] in "89ab"
  }

  /** ^-?(0|[1-9][0-9]*)$ */
  predicate IntegerLexeme(s: string) {
    var d := TrimPrefix(s, "-");
    d != "" && AllDigits(d) && (d[0] == '0' ==> d == "0")
  }

  // --------------------------------------------------------------------- scalars

  datatype IntType = GoInt | GoInt8 | GoInt16 | GoInt32 | GoInt64 | GoUint | GoUint8 | GoUint16 | GoUint32 | GoUint64

  function TypeName(t: IntType): string {
    match t
    case GoInt => "int" case GoInt8 => "int8" case GoInt16 => "int16" case GoInt32 => "int32" case GoInt64 => "int64"
    case GoUint => "uint" case GoUint8 => "uint8" case GoUint16 => "uint16" case GoUint32 => "uint32"
       case GoUint64 => "uint64"
  }

  function TypeNamed(name: string): Option<IntType> {
    if name == "int" then Some(GoInt) else if name == "int8" then Some(GoInt8)
    else if name == "int16" then Some(GoInt16) else if name == "int32" then Some(GoInt32)
    else if name == "int64" then Some(GoInt64) else if name == "uint" then Some(GoUint)
    else if name == "uint8" then Some(GoUint8) else if name == "uint16" then Some(GoUint16)
    else if name == "uint32" then Some(GoUint32) else if name == "uint64" then Some(GoUint64) else None
  }

  function Bits(t: IntType): nat {
    match t
    case GoInt8 => 8 case GoUint8 => 8
    case GoInt16 => 16 case GoUint16 => 16
    case GoInt32 => 32 case GoUint32 => 32
    case _ => 64
  }

  predicate Signed(t: IntType) { t.GoInt? || t.GoInt8? || t.GoInt16? || t.GoInt32? || t.GoInt64? }

  /** A Go value of type any; Unsupported stands for everything the input refuses by type. */
  datatype GoValue = Nil | Text(s: string) | Boolean(b: bool) | Integer(t: IntType, n: int) | Number(lexeme: string)
      | Unsupported

  predicate Representable(v: GoValue) {
    v.Integer? ==>
      if Signed(v.t) then -(WidthRange(Bits(v.t)) / 2) <= v.n < WidthRange(Bits(v.t)) / 2
         else 0 <= v.n < WidthRange(Bits(v.t))
  }

  type Scalar = v: GoValue | Representable(v) witness Nil

  datatype Atom = Atom(typ: string, value: string)

  /** The canonical atom of a scalar, or None when the scalar is refused. */
  function ScalarAtom(v: Scalar): Option<Atom> {
    match v
    case Nil => Some(Atom("null", ""))
    case Text(s) => if Json.ByteLength(s) > MAX_BYTES then None else Some(Atom("string", s))
    case Boolean(b) => Some(Atom("bool", if b then "true" else "false"))
    case Integer(t, n) => if !Signed(t) && n > MAX_INT64 then None else Some(Atom(TypeName(t), FormatInt(n)))
    case Number(lexeme) =>
      if |lexeme| > 20 || !IntegerLexeme(lexeme) || ParseInt(lexeme, 64).None? then None
         else Some(Atom("jsonint", lexeme))
    case Unsupported => None
  }

  function ParseBool(s: string): Option<bool> {
    if s in {"1", "t", "T", "true", "TRUE", "True"} then Some(true)
    else if s in {"0", "f", "F", "false", "FALSE", "False"} then Some(false)
    else None
  }

  function AtomValue(a: Atom): Option<Scalar> {
    if a.typ == "null" then Some(Nil)
    else if a.typ == "string" then Some(Text(a.value))
    else if a.typ == "bool" then (match ParseBool(a.value) case None => None case Some(b) => Some(Boolean(b)))
    else if a.typ == "jsonint" then Some(Number(a.value))
    else
      match TypeNamed(a.typ)
      case None => None
      case Some(t) =>
        if Signed(t) then (match ParseInt(a.value, Bits(t)) case None => None case Some(n) => Some(Integer(t, n)))
        else (match ParseUint(a.value, Bits(t)) case None => None case Some(n) => Some(Integer(t, n)))
  }

  /** One decoded atom must print as the very atom that was read. */
  function DecodeAtom(a: Atom): Option<Scalar> {
    match AtomValue(a)
    case None => None
    case Some(v) => if ScalarAtom(v) == Some(a) then Some(v) else None
  }

  lemma TypeNameRoundTrip(t: IntType)
    ensures TypeNamed(TypeName(t)) == Some(t)
    ensures TypeName(t) !in {"null", "string", "bool", "jsonint"}
  {
    var n := TypeName(t);
    assert n[0] == 'i' || n[0] == 'u';
    assert n != "null" && n != "string" && n != "bool" && n != "jsonint";
  }

  lemma AtomRoundTrip(v: Scalar)
    requires ScalarAtom(v).Some?
    ensures DecodeAtom(ScalarAtom(v).value) == Some(v)
  {
    if v.Integer? {
      TypeNameRoundTrip(v.t);
      ParseFormatInt(v.n, Bits(v.t));
    } else if v.Boolean? {
      assert ParseBool("true") == Some(true);
      assert "false" !in {"1", "t", "T", "true", "TRUE", "True"};
      assert ParseBool("false") == Some(false);
    }
  }

  // -------------------------------------------------------------------- commands

  datatype Version = Version(column: string, expected: Int64)

  datatype Step = Step(operation: string, table: string, values: map<string, Scalar>, keys: map<string, Scalar>,
                       expectAffected: Option<Int64>, version: Option<Version>)

  datatype Hook = Hook(name: string, table: string, values: map<string, Scalar>)

  datatype Command = Command(id: string, kind: string, steps: seq<Step>, hooks: seq<Hook>)

  /** One planned statement; a pure record of what will be dispatched. */
  datatype Request = Request(operation: string, table: string, columns: seq<string>, values: map<string, Scalar>,
                             whereColumns: seq<string>, whereValues: seq<Scalar>,
                             expected: Option<Int64>, version: Option<Version>)

  function HookStep(h: Hook): Step { Step("insert", h.table, h.values, map[], Some(1), None) }

  function HookSteps(hooks: seq<Hook>): (r: seq<Step>)
    ensures |r| == |hooks|
  {
    if hooks == [] then [] else HookSteps(hooks[..|hooks| - 1]) + [HookStep(hooks[|hooks| - 1])]
  }

  /** The business steps followed by the hooks as inserts of exactly one row. */
  function AllSteps(c: Command): (r: seq<Step>)
    ensures |r| == |c.steps| + |c.hooks|
  {
    c.steps + HookSteps(c.hooks)
  }

  lemma {:induction false} HookStepsAt(hooks: seq<Hook>, i: nat)
    requires i < |hooks|
    ensures HookSteps(hooks)[i] == HookStep(hooks[i])
  {
    if i < |hooks| - 1 { HookStepsAt(hooks[..|hooks| - 1], i); }
  }

  datatype Field = Field(name: string, atom: Atom)

  predicate FieldsOk(m: map<string, Scalar>) {
    |m| <= MAX_COLUMNS && forall k :: k in m ==> Ident(k) && ScalarAtom(m[k]).Some?
  }

  /** The field a map entry prints as; refused scalars never reach a document. */
  function FieldOf(m: map<string, Scalar>, k: string): Field
    requires k in m
  {
    Field(k, match ScalarAtom(m[k]) case Some(a) => a case None => Atom("", ""))
  }

  function FieldList(m: map<string, Scalar>, names: seq<string>): (fs: seq<Field>)
    requires forall i :: 0 <= i < |names| ==> names[i] in m
  {
    if names == [] then [] else FieldList(m, names[..|names| - 1]) + [FieldOf(m, names[|names| - 1])]
  }

  /** The fields in byte order of their names. */
  ghost function Fields(m: map<string, Scalar>): seq<Field> {
    var names := SortedNames(m.Keys);
    assert forall i :: 0 <= i < |names| ==> names[i] in names;
    FieldList(m, names)
  }

  function FieldCost(f: Field): nat {
    Json.ByteLength(f.name) + Json.ByteLength(f.atom.value) + Json.ByteLength(f.atom.typ)
  }

  function FieldsCost(fs: seq<Field>): nat {
    if fs == [] then 0 else FieldsCost(fs[..|fs| - 1]) + FieldCost(fs[|fs| - 1])
  }

  predicate OptionsValid(expected: Option<Int64>, version: Option<Version>) {
    && (expected.Some? ==> expected.value >= 0)
    && (version.Some? ==>
          && version.value.expected >= 0 && version.value.column != ""
          && (expected.Some? ==> expected.value == 1))
  }

  /** What one step must satisfy apart from the shared size budgets. */
  predicate StepOk(s: Step) {
    && Ident(s.table) && s.table != LEDGER_TABLE && s.values != map[]
    && (s.operation == "insert" || s.operation == "update")
    && (s.operation == "insert" <==> s.keys == map[])
    && FieldsOk(s.values) && FieldsOk(s.keys)
    && (s.version.Some? ==>
          && Ident(s.version.value.column) && s.version.value.expected != MAX_INT64
          && s.version.value.column !in s.values && s.version.value.column !in s.keys
          && s.operation == "update")
    && OptionsValid(s.expectAffected, s.version)
    && (forall k :: k in s.keys ==> s.keys[k] != Nil)
  }

  ghost predicate StepsOk(c: Command) { forall s :: s in AllSteps(c) ==> StepOk(s) }

  function HookNameCost(c: Command, i: nat): nat
    requires i < |AllSteps(c)|
  {
    if i < |c.steps| then 0 else Json.ByteLength(c.hooks[i - |c.steps|].name)
  }

  ghost function StepCost(s: Step, hookName: nat): nat {
    Json.ByteLength(s.table) + Json.ByteLength(s.operation) + hookName + FieldsCost(Fields(s.values))
        + FieldsCost(Fields(s.keys))
  }

  /** Bytes charged by the first n steps. */
  ghost function BudgetUpTo(c: Command, n: nat): nat
    requires n <= |AllSteps(c)|
  {
    if n == 0 then Json.ByteLength(c.kind)
    else BudgetUpTo(c, n - 1) + StepCost(AllSteps(c)[n - 1], HookNameCost(c, n - 1))
  }

  function NodesUpTo(c: Command, n: nat): nat
    requires n <= |AllSteps(c)|
  {
    if n == 0 then 0 else NodesUpTo(c, n - 1) + |AllSteps(c)[n - 1].values| + |AllSteps(c)[n - 1].keys|
  }

  predicate HeaderOk(c: Command) {
    && Uuid(c.id) && Label(c.kind)
    && 0 < |c.steps| && |c.steps| + |c.hooks| <= MAX_STEPS
    && forall h :: h in c.hooks ==> Label(h.name)
  }

  // ------------------------------------------------------- the canonical document

  function FieldDoc(f: Field): Json.Value {
    Json.Obj([Json.Member("name", Json.Str(f.name)),
              Json.Member("atom", Json.Obj([Json.Member("type", Json.Str(f.atom.typ)),
                  Json.Member("value", Json.Str(f.atom.value))]))])
  }

  function FieldDocs(fs: seq<Field>): seq<Json.Value> {
    if fs == [] then [] else FieldDocs(fs[..|fs| - 1]) + [FieldDoc(fs[|fs| - 1])]
  }

  function MembersV1(operation: string, table: string, vf: seq<Field>, kf: seq<Field>): seq<Json.Member> {
    [Json.Member("Operation", Json.Str(operation)), Json.Member("Table", Json.Str(table)),
     Json.Member("Values", Json.Arr(FieldDocs(vf))), Json.Member("Keys", Json.Arr(FieldDocs(kf)))]
  }

  ghost function StepDocV1(s: Step): Json.Value {
    Json.Obj(MembersV1(s.operation, s.table, Fields(s.values), Fields(s.keys)))
  }

  function ExpectDoc(e: Option<Int64>): Json.Value { if e.None? then Json.Null else Json.Int(e.value) }

  function VersionDoc(v: Option<Version>): Json.Value {
    if v.None? then Json.Null
    else Json.Obj([Json.Member("Column", Json.Str(v.value.column)),
       Json.Member("Expected", Json.Int(v.value.expected))])
  }

  function MembersV2(operation: string, table: string, vf: seq<Field>, kf: seq<Field>, e: Option<Int64>,
      v: Option<Version>): seq<Json.Member> {
    MembersV1(operation, table, vf, kf)
        + [Json.Member("ExpectAffected", ExpectDoc(e)), Json.Member("Version", VersionDoc(v))]
  }

  ghost function StepDocV2(s: Step): Json.Value {
    Json.Obj(MembersV2(s.operation, s.table, Fields(s.values), Fields(s.keys), s.expectAffected, s.version))
  }

  ghost function StepDoc(s: Step, legacy: bool): Json.Value { if legacy then StepDocV1(s) else StepDocV2(s) }

  ghost function StepDocs(steps: seq<Step>, legacy: bool): seq<Json.Value> {
    if steps == [] then [] else StepDocs(steps[..|steps| - 1], legacy) + [StepDoc(steps[|steps| - 1], legacy)]
  }

  function HookMembers(name: string, table: string, vf: seq<Field>): seq<Json.Member> {
    [Json.Member("Name", Json.Str(name)), Json.Member("Table", Json.Str(table)),
        Json.Member("Values", Json.Arr(FieldDocs(vf)))]
  }

  ghost function HookDoc(h: Hook): Json.Value { Json.Obj(HookMembers(h.name, h.table, Fields(h.values))) }

  ghost function HookDocs(hooks: seq<Hook>): seq<Json.Value> {
    if hooks == [] then [] else HookDocs(hooks[..|hooks| - 1]) + [HookDoc(hooks[|hooks| - 1])]
  }

  predicate Extended(c: Command) {
    exists s :: s in AllSteps(c) && (s.expectAffected.Some? || s.version.Some?)
  }

  function DocVersion(c: Command): int { if c.hooks != [] then 3 else if Extended(c) then 2 else 1 }

  function Document(version: int, kind: string, steps: seq<Json.Value>, hooks: seq<Json.Value>): Json.Value {
    Json.Obj([Json.Member("Version", Json.Int(version)), Json.Member("Kind", Json.Str(kind)),
        Json.Member("Steps", Json.Arr(steps))]
             + if version == 3 then [Json.Member("Hooks", Json.Arr(hooks))] else [])
  }

  /** The canonical document: version 1, 2 with expectations, 3 with hooks. */
  ghost function Canonical(c: Command): Json.Value {
    Document(DocVersion(c), c.kind, StepDocs(c.steps, DocVersion(c) == 1), HookDocs(c.hooks))
  }

  /** Everything that makes a command acceptable. */
  ghost predicate Accepts(c: Command) {
    && HeaderOk(c) && StepsOk(c)
    && BudgetUpTo(c, |AllSteps(c)|) <= MAX_BYTES
    && NodesUpTo(c, |AllSteps(c)|) <= MAX_NODES
    && Json.TextLength(Canonical(c)) <= MAX_BYTES
  }

  function ValuesAt(m: map<string, Scalar>, names: seq<string>): seq<Scalar>
    requires forall i :: 0 <= i < |names| ==> names[i] in m
  {
    if names == [] then [] else ValuesAt(m, names[..|names| - 1]) + [m[names[|names| - 1]]]
  }

  ghost function RequestOf(s: Step, schema: string): Request {
    var keys := SortedNames(s.keys.Keys);
    assert forall i :: 0 <= i < |keys| ==> keys[i] in keys;
    Request(s.operation, schema + "." + s.table, SortedNames(s.values.Keys), s.values,
            keys, ValuesAt(s.keys, keys), s.expectAffected, s.version)
  }

  ghost function RequestsUpTo(c: Command, schema: string, n: nat): seq<Request>
    requires n <= |AllSteps(c)|
  {
    if n == 0 then [] else RequestsUpTo(c, schema, n - 1) + [RequestOf(AllSteps(c)[n - 1], schema)]
  }

  /** The statements of a command, business steps first and hooks last. */
  ghost function Requests(c: Command, schema: string): seq<Request> {
    RequestsUpTo(c, schema, |AllSteps(c)|)
  }

  // --------------------------------------------------------------------- decoding

  function DecodeField(v: Json.Value): Option<Field> {
    match Json.Members(v)
    case None => None
    case Some(ms) =>
      match (Json.StringField(ms, "name"), Json.Lookup(ms, "atom"))
      case (Some(name), None) => Some(Field(name, Atom("", "")))
      case (Some(name), Some(a)) =>
        (match Json.Members(a)
         case None => None
         case Some(am) =>
           match (Json.StringField(am, "type"), Json.StringField(am, "value"))
           case (Some(t), Some(x)) => Some(Field(name, Atom(t, x)))
           case _ => None)
      case _ => None
  }

  /** commandDecodeFields: every atom must decode, and no name may repeat. */
  function DecodeFields(vs: seq<Json.Value>): Option<map<string, Scalar>> {
    if vs == [] then Some(map[])
    else
      match (DecodeFields(vs[..|vs| - 1]), DecodeField(vs[|vs| - 1]))
      case (Some(m), Some(f)) =>
        (match DecodeAtom(f.atom)
         case None => None
         case Some(x) => if f.name in m then None else Some(m[f.name := x]))
      case _ => None
  }

  function DecodeFieldList(ms: seq<Json.Member>, name: string): Option<map<string, Scalar>> {
    match Json.ArrayField(ms, name)
    case None => None
    case Some(vs) => DecodeFields(vs)
  }

  function DecodeExpect(ms: seq<Json.Member>): Option<Option<Int64>> {
    match Json.Lookup(ms, "ExpectAffected")
    case None => Some(None)
    case Some(v) => if v.Null? then Some(None) else if v.Int? && -POW63 <= v.n < POW63 then Some(Some(v.n)) else None
  }

  function DecodeVersion(ms: seq<Json.Member>): Option<Option<Version>> {
    match Json.Lookup(ms, "Version")
    case None => Some(None)
    case Some(v) =>
      if v.Null? then Some(None)
      else
        match Json.Members(v)
        case None => None
        case Some(vm) =>
          match (Json.StringField(vm, "Column"), Json.IntField(vm, "Expected"))
          case (Some(column), Some(n)) => if -POW63 <= n < POW63 then Some(Some(Version(column, n))) else None
          case _ => None
  }

  function DecodeStep(v: Json.Value, version: int): Option<Step> {
    match Json.Members(v)
    case None => None
    case Some(ms) =>
      match (Json.StringField(ms, "Operation"), Json.StringField(ms, "Table"), DecodeFieldList(ms, "Values"),
          DecodeFieldList(ms, "Keys"))
      case (Some(op), Some(table), Some(values), Some(keys)) =>
        if version == 1 then Some(Step(op, table, values, keys, None, None))
        else
          (match (DecodeExpect(ms), DecodeVersion(ms))
           case (Some(e), Some(w)) => Some(Step(op, table, values, keys, e, w))
           case _ => None)
      case _ => None
  }

  function DecodeSteps(vs: seq<Json.Value>, version: int): Option<seq<Step>> {
    if vs == [] then Some([])
    else
      match (DecodeSteps(vs[..|vs| - 1], version), DecodeStep(vs[|vs| - 1], version))
      case (Some(ss), Some(s)) => Some(ss + [s])
      case _ => None
  }

  function DecodeHook(v: Json.Value): Option<Hook> {
    match Json.Members(v)
    case None => None
    case Some(ms) =>
      match (Json.StringField(ms, "Name"), Json.StringField(ms, "Table"), DecodeFieldList(ms, "Values"))
      case (Some(name), Some(table), Some(values)) => Some(Hook(name, table, values))
      case _ => None
  }

  function DecodeHooks(vs: seq<Json.Value>): Option<seq<Hook>> {
    if vs == [] then Some([])
    else
      match (DecodeHooks(vs[..|vs| - 1]), DecodeHook(vs[|vs| - 1]))
      case (Some(hs), Some(h)) => Some(hs + [h])
      case _ => None
  }

  /** The command a stored document denotes, under the placeholder ID. */
  function Decode(doc: Json.Value): Option<Command> {
    match Json.Members(doc)
    case None => None
    case Some(ms) =>
      match (Json.IntField(ms, "Version"), Json.StringField(ms, "Kind"), Json.ArrayField(ms, "Steps"))
      case (Some(v), Some(kind), Some(steps)) =>
        if v != 1 && v != 2 && v != 3 then None
        else
          (match (DecodeSteps(steps, v), if v == 3 then Json.ArrayField(ms, "Hooks") else Some([]))
           case (Some(ss), Some(hooks)) =>
             (match DecodeHooks(hooks)
              case None => None
              case Some(hs) => Some(Command(PLACEHOLDER_ID, kind, ss, hs)))
           case _ => None)
      case _ => None
  }

  /** A domain-separated SHA-256, taken as injective: equal digests mean equal inputs. */
  datatype Digest = Digest(domain: int, doc: Json.Value)

  /** commandFingerprint: decode, print again, and insist on the very same text. */
  ghost function Fingerprint(doc: Json.Value): Option<Digest> {
    if Json.TextLength(doc) > MAX_BYTES then None
    else
      match Decode(doc)
      case None => None
      case Some(c) => if Accepts(c) && Canonical(c) == doc then Some(Digest(DocVersion(c), doc)) else None
  }
}
