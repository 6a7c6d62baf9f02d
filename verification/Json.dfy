/** JSON documents as the encoder sees them. Characters are Unicode scalar values,
    so every string here is valid UTF-8; lengths are counted in encoded bytes. */
module Json {
  import opened Text

  datatype Member = Member(name: string, value: Value)

  datatype Value =
    | Null
    | Bool(b: bool)
    | Int(n: int)
    | Str(s: string)
    | Arr(items: seq<Value>)
    | Obj(members: seq<Member>)

  /** Bytes of one character in UTF-8. */
  function Width(c: char): nat {
    var n := c as int;
    if n < 0x80 then 1 else if n < 0x800 then 2 else if n < 0x10000 then 3 else 4
  }

  function ByteLength(s: string): nat {
    if s == "" then 0 else ByteLength(s[..|s| - 1]) + Width(s[|s| - 1])
  }

  /** Bytes of one character inside a quoted string, with the encoder's HTML escapes. */
  function EscapedWidth(c: char): (n: nat)
    ensures Width(c) <= n
  {
    var n := c as int;
    if c == '"' || c == '\\' || n == 8 || n == 9 || n == 10 || n == 12 || n == 13 then 2
    else if n < 0x20 || c == '<' || c == '>' || c == '&' || n == 0x2028 || n == 0x2029 then 6
    else Width(c)
  }

  function EscapedLength(s: string): nat {
    if s == "" then 0 else EscapedLength(s[..|s| - 1]) + EscapedWidth(s[|s| - 1])
  }

  function QuotedLength(s: string): nat { 2 + EscapedLength(s) }

  lemma {:induction false} QuotingNeverShortens(s: string)
    ensures ByteLength(s) <= EscapedLength(s)
  {
    if s != "" { QuotingNeverShortens(s[..|s| - 1]); }
  }

  /** The length of the compact text the encoder writes. */
  function TextLength(v: Value): nat {
    match v
    case Null => 4
    case Bool(b) => if b then 4 else 5
    case Int(n) => |FormatInt(n)|
    case Str(s) => QuotedLength(s)
    case Arr(items) => 2 + ItemsLength(items)
    case Obj(members) => 2 + MembersLength(members)
  }

  function ItemsLength(items: seq<Value>): nat {
    if items == [] then 0
    else
      var n := |items| - 1;
      ItemsLength(items[..n]) + (if n == 0 then 0 else 1) + TextLength(items[n])
  }

  function MembersLength(members: seq<Member>): nat {
    if members == [] then 0
    else
      var n := |members| - 1;
      MembersLength(members[..n]) + (if n == 0 then 0 else 1) + QuotedLength(members[n].name) + 1
          + TextLength(members[n].value)
  }

  // --------------------------------------- reading one struct field of a decoder

  /** The last member of that name wins, as in a Go struct decode. */
  function Lookup(members: seq<Member>, name: string): Option<Value> {
    if members == [] then None
    else if members[|members| - 1].name == name then Some(members[|members| - 1].value)
    else Lookup(members[..|members| - 1], name)
  }

  lemma {:induction false} LookupFinds(members: seq<Member>, i: nat)
    requires i < |members|
    requires forall j :: i < j < |members| ==> members[j].name != members[i].name
    ensures Lookup(members, members[i].name) == Some(members[i].value)
  {
    if i < |members| - 1 { LookupFinds(members[..|members| - 1], i); }
  }

  function Members(v: Value): Option<seq<Member>> {
    if v.Obj? then Some(v.members) else if v.Null? then Some([]) else None
  }

  /** A missing or null member leaves the zero value; another kind is an error. */
  function StringField(members: seq<Member>, name: string): Option<string> {
    match Lookup(members, name)
    case None => Some("")
    case Some(v) => if v.Str? then Some(v.s) else if v.Null? then Some("") else None
  }

  function IntField(members: seq<Member>, name: string): Option<int> {
    match Lookup(members, name)
    case None => Some(0)
    case Some(v) => if v.Int? then Some(v.n) else if v.Null? then Some(0) else None
  }

  function ArrayField(members: seq<Member>, name: string): Option<seq<Value>> {
    match Lookup(members, name)
    case None => Some([])
    case Some(v) => if v.Arr? then Some(v.items) else if v.Null? then Some([]) else None
  }
}
