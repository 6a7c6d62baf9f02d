/** internal/inputjson/budget.go: the walker that sizes a value and the scanner that
    bounds its text accept the same values, and agree on their number of bytes. */
module InputBudget {
  import opened Text
  import opened Json

  const MAX_BYTES: int := 1048576
  const MAX_DEPTH: int := 32
  const MAX_NODES: int := 16384

  // --------------------------------------------------------- what the limits count

  /** Value nodes; member names are not nodes. */
  function Nodes(v: Value): (n: nat)
    ensures n >= 1
  {
    match v
    case Arr(items) => 1 + ItemsNodes(items)
    case Obj(members) => 1 + MembersNodes(members)
    case _ => 1
  }

  function ItemsNodes(items: seq<Value>): (n: nat)
    ensures n >= |items|
  {
    if items == [] then 0 else ItemsNodes(items[..|items| - 1]) + Nodes(items[|items| - 1])
  }

  function MembersNodes(members: seq<Member>): (n: nat)
    ensures n >= |members|
  {
    if members == [] then 0 else MembersNodes(members[..|members| - 1]) + Nodes(members[|members| - 1].value)
  }

  predicate DepthWithin(v: Value, room: int) {
    room >= 0
    && match v
       case Arr(items) => forall i :: 0 <= i < |items| ==> DepthWithin(items[i], room - 1)
       case Obj(members) => forall i :: 0 <= i < |members| ==> DepthWithin(members[i].value, room - 1)
       case _ => true
  }

  predicate NamesApart(members: seq<Member>) {
    forall i, j :: 0 <= i < j < |members| ==> ToLower(members[i].name) != ToLower(members[j].name)
  }

  /** No object has two names that differ in case only. */
  predicate NoTwins(v: Value) {
    match v
    case Arr(items) => forall i :: 0 <= i < |items| ==> NoTwins(items[i])
    case Obj(members) => NamesApart(members) && forall i :: 0 <= i < |members| ==> NoTwins(members[i].value)
    case _ => true
  }

  /** The value keeps every limit when met at this depth with this much used. */
  predicate Fits(v: Value, depth: int, bytes: int, nodes: int) {
    && nodes + Nodes(v) <= MAX_NODES && bytes + TextLength(v) <= MAX_BYTES
    && DepthWithin(v, MAX_DEPTH - depth) && NoTwins(v)
  }

  lemma {:induction false} ItemsPrefix(items: seq<Value>, k: nat)
    requires k <= |items|
    ensures ItemsLength(items[..k]) <= ItemsLength(items) && ItemsNodes(items[..k]) <= ItemsNodes(items)
  {
    if k < |items| {
      var n := |items| - 1;
      assert items[..n][..k] == items[..k];
      ItemsPrefix(items[..n], k);
    } else {
      assert items[..k] == items;
    }
  }

  lemma {:induction false} MembersPrefix(members: seq<Member>, k: nat)
    requires k <= |members|
    ensures MembersLength(members[..k]) <= MembersLength(members)
    ensures MembersNodes(members[..k]) <= MembersNodes(members)
  {
    if k < |members| {
      var n := |members| - 1;
      assert members[..n][..k] == members[..k];
      MembersPrefix(members[..n], k);
    } else {
      assert members[..k] == members;
    }
  }

  // ------------------------------------------------------- lists and objects so far

  predicate ChildFits(v: Value, room: int) { DepthWithin(v, room) && NoTwins(v) }

  predicate ItemsFit(items: seq<Value>, depth: int, bytes: int, nodes: int) {
    && nodes + ItemsNodes(items) <= MAX_NODES && bytes + ItemsLength(items) <= MAX_BYTES
    && forall i :: 0 <= i < |items| ==> ChildFits(items[i], MAX_DEPTH - depth - 1)
  }

  lemma ItemsFitWhole(items: seq<Value>, depth: int, bytes: int, nodes: int)
    requires depth <= MAX_DEPTH
    ensures Fits(Arr(items), depth, bytes, nodes) <==> ItemsFit(items, depth, bytes + 2, nodes + 1)
    ensures ItemsFit(items, depth, bytes + 2, nodes + 1) ==> |items| <= MAX_NODES - nodes - 1 && bytes + 2 <= MAX_BYTES
  {
  }

  lemma NoItems(items: seq<Value>)
    ensures ItemsLength(items[..0]) == 0 && ItemsNodes(items[..0]) == 0
  {
  }

  lemma ItemsFitPrefix(items: seq<Value>, k: nat, depth: int, bytes: int, nodes: int)
    requires k <= |items|
    ensures ItemsFit(items, depth, bytes, nodes) ==> ItemsFit(items[..k], depth, bytes, nodes)
    ensures k == 0 && nodes <= MAX_NODES && bytes <= MAX_BYTES ==> ItemsFit(items[..k], depth, bytes, nodes)
  {
    hide ChildFits;
    ItemsPrefix(items, k);
  }

  lemma ItemsFitNext(items: seq<Value>, i: nat, depth: int, bytes: int, nodes: int)
    requires i < |items|
    ensures ItemsLength(items[..i + 1]) == ItemsLength(items[..i]) + (if i == 0 then 0 else 1) + TextLength(items[i])
    ensures ItemsNodes(items[..i + 1]) == ItemsNodes(items[..i]) + Nodes(items[i])
    ensures ItemsFit(items[..i + 1], depth, bytes, nodes) <==>
            && ItemsFit(items[..i], depth, bytes, nodes)
            && Fits(items[i], depth + 1, bytes + ItemsLength(items[..i]) + (if i == 0 then 0 else 1),
               nodes + ItemsNodes(items[..i]))
  {
    hide DepthWithin, NoTwins, TextLength, Nodes;
    assert items[..i + 1][..i] == items[..i];
  }

  function MemberLength(m: Member, first: bool): nat {
    (if first then 0 else 1) + QuotedLength(m.name) + 1 + TextLength(m.value)
  }

  predicate MemberFits(m: Member, first: bool, depth: int, bytes: int, nodes: int) {
    Fits(m.value, depth + 1, bytes + (if first then 0 else 1) + QuotedLength(m.name) + 1, nodes)
  }

  predicate MembersFit(members: seq<Member>, depth: int, bytes: int, nodes: int) {
    && nodes + MembersNodes(members) <= MAX_NODES && bytes + MembersLength(members) <= MAX_BYTES && NamesApart(members)
    && forall i :: 0 <= i < |members| ==> ChildFits(members[i].value, MAX_DEPTH - depth - 1)
  }

  predicate NameSeen(members: seq<Member>, name: string) {
    exists i :: 0 <= i < |members| && ToLower(members[i].name) == name
  }

  lemma MembersFitWhole(members: seq<Member>, depth: int, bytes: int, nodes: int)
    requires depth <= MAX_DEPTH
    ensures Fits(Obj(members), depth, bytes, nodes) <==> MembersFit(members, depth, bytes + 2, nodes + 1)
    ensures MembersFit(members, depth, bytes + 2, nodes + 1)
            ==> |members| <= MAX_NODES - nodes - 1 && bytes + 2 <= MAX_BYTES
  {
    hide NamesApart;
  }

  lemma NoMembers(members: seq<Member>)
    ensures MembersLength(members[..0]) == 0 && MembersNodes(members[..0]) == 0
    ensures forall name :: !NameSeen(members[..0], name)
  {
  }

  lemma MembersFitPrefix(members: seq<Member>, k: nat, depth: int, bytes: int, nodes: int)
    requires k <= |members|
    ensures MembersFit(members, depth, bytes, nodes) ==> MembersFit(members[..k], depth, bytes, nodes)
    ensures k == 0 && nodes <= MAX_NODES && bytes <= MAX_BYTES ==> MembersFit(members[..k], depth, bytes, nodes)
  {
    hide ChildFits, ToLower;
    MembersPrefix(members, k);
  }

  lemma MembersFitNext(members: seq<Member>, i: nat, depth: int, bytes: int, nodes: int)
    requires i < |members|
    ensures MembersLength(members[..i + 1]) == MembersLength(members[..i]) + MemberLength(members[i], i == 0)
    ensures MembersNodes(members[..i + 1]) == MembersNodes(members[..i]) + Nodes(members[i].value)
    ensures MembersFit(members[..i + 1], depth, bytes, nodes) <==>
            && MembersFit(members[..i], depth, bytes, nodes) && !NameSeen(members[..i], ToLower(members[i].name))
            && MemberFits(members[i], i == 0, depth, bytes + MembersLength(members[..i]),
               nodes + MembersNodes(members[..i]))
  {
    hide DepthWithin, NoTwins, TextLength, Nodes, QuotedLength, NamesApart, ToLower, NameSeen;
    assert members[..i + 1][..i] == members[..i];
    ApartNext(members, i);
  }

  lemma ApartNext(members: seq<Member>, i: nat)
    requires i < |members|
    ensures NamesApart(members[..i + 1])
            <==> NamesApart(members[..i]) && !NameSeen(members[..i], ToLower(members[i].name))
  {
    hide ToLower;
    var more := members[..i + 1];
    assert forall k :: 0 <= k < i ==> more[k] == members[..i][k];
    assert more[i] == members[i];
    if NamesApart(more) {
      assert forall j, k :: 0 <= j < k < i ==> ToLower(members[..i][j].name) != ToLower(members[..i][k].name) by {
        forall j, k | 0 <= j < k < i ensures ToLower(members[..i][j].name) != ToLower(members[..i][k].name) {
          assert ToLower(more[j].name) != ToLower(more[k].name);
        }
      }
    }
  }

  lemma SeenNext(members: seq<Member>, i: nat)
    requires i < |members|
    ensures forall x :: NameSeen(members[..i + 1], x) <==> NameSeen(members[..i], x) || x == ToLower(members[i].name)
  {
    hide ToLower;
    forall x ensures NameSeen(members[..i + 1], x) <==> NameSeen(members[..i], x) || x == ToLower(members[i].name) {
      if NameSeen(members[..i], x) {
        var k :| 0 <= k < i && ToLower(members[..i][k].name) == x;
        assert members[..i + 1][k] == members[..i][k];
      }
      assert members[..i + 1][i] == members[i];
      if NameSeen(members[..i + 1], x) && x != ToLower(members[i].name) {
        var k :| 0 <= k < i + 1 && ToLower(members[..i + 1][k].name) == x;
        assert members[..i][k] == members[..i + 1][k];
      }
    }
  }

  // ---------------------------------------------------------------------- the walker

  /** The counters that Size's closures share. An object's members are listed in the
      order its map is walked. */
  class Walker {
    var bytes: int
    var nodes: int

    constructor ()
      ensures bytes == 0 && nodes == 0
    {
      bytes, nodes := 0, 0;
    }

    method Add(n: int) returns (ok: bool)
      modifies this
      ensures ok <==> old(bytes) + n <= MAX_BYTES
      ensures nodes == old(nodes) && bytes == if ok then old(bytes) + n else old(bytes)
    {
      if n > MAX_BYTES - bytes { return false; }
      bytes := bytes + n;
      return true;
    }

    method Quote(s: string) returns (ok: bool)
      modifies this
      ensures ok <==> old(bytes) + QuotedLength(s) <= MAX_BYTES
      ensures nodes == old(nodes) && (ok ==> bytes == old(bytes) + QuotedLength(s))
    {
      QuotingNeverShortens(s);
      if ByteLength(s) > MAX_BYTES - bytes { return false; }
      ok := Add(QuotedLength(s));
    }

    method Walk(v: Value, depth: int) returns (ok: bool)
      modifies this
      ensures ok <==> Fits(v, depth, old(bytes), old(nodes))
      ensures ok ==> bytes == old(bytes) + TextLength(v) && nodes == old(nodes) + Nodes(v)
      decreases v, 1, 0
    {
      nodes := nodes + 1;
      if nodes > MAX_NODES || depth > MAX_DEPTH { return false; }
      match v {
        case Null => ok := Add(4);
        case Bool(b) => ok := Add(if b then 4 else 5);
        case Int(n) => ok := Add(|FormatInt(n)|);
        case Str(s) => ok := Quote(s);
        case Arr(items) => ok := WalkItems(v, depth);
        case Obj(members) => ok := WalkMembers(v, depth);
      }
    }

    method WalkItems(v: Value, depth: int) returns (ok: bool)
      requires v.Arr? && nodes <= MAX_NODES && depth <= MAX_DEPTH
      modifies this
      ensures ok <==> Fits(v, depth, old(bytes), old(nodes) - 1)
      ensures ok ==> bytes == old(bytes) + TextLength(v) && nodes == old(nodes) - 1 + Nodes(v)
      decreases v, 0, 1
    {
      hide DepthWithin, NoTwins, ItemsLength, ItemsNodes;
      var items := v.items;
      ghost var b, n := bytes + 2, nodes;
      ItemsFitWhole(items, depth, bytes, n - 1);
      if |items| > MAX_NODES - nodes { return false; }
      ok := Add(2);
      if !ok { return; }
      ItemsFitPrefix(items, 0, depth, b, n);
      NoItems(items);
      for i := 0 to |items|
        invariant bytes == b + ItemsLength(items[..i]) && nodes == n + ItemsNodes(items[..i])
        invariant ItemsFit(items[..i], depth, b, n)
      {
        ItemsFitNext(items, i, depth, b, n);
        ItemsFitPrefix(items, i + 1, depth, b, n);
        if i > 0 {
          ok := Add(1);
          if !ok { return; }
        }
        ok := Walk(items[i], depth + 1);
        if !ok { return; }
      }
      assert items[..|items|] == items;
      return true;
    }

    method WalkMember(m: Member, first: bool, depth: int, ghost whole: Value) returns (ok: bool)
      requires m < whole
      modifies this
      ensures ok <==> MemberFits(m, first, depth, old(bytes), old(nodes))
      ensures ok ==> bytes == old(bytes) + MemberLength(m, first) && nodes == old(nodes) + Nodes(m.value)
      decreases whole, 0, 0
    {
      hide DepthWithin, NoTwins, TextLength, Nodes, EscapedLength;
      if !first {
        ok := Add(1);
        if !ok { return; }
      }
      ok := Quote(m.name);
      if !ok { return; }
      ok := Add(1);
      if !ok { return; }
      ok := Walk(m.value, depth + 1);
    }

    method WalkMembers(v: Value, depth: int) returns (ok: bool)
      requires v.Obj? && nodes <= MAX_NODES && depth <= MAX_DEPTH
      modifies this
      ensures ok <==> Fits(v, depth, old(bytes), old(nodes) - 1)
      ensures ok ==> bytes == old(bytes) + TextLength(v) && nodes == old(nodes) - 1 + Nodes(v)
      decreases v, 0, 1
    {
      hide DepthWithin, NoTwins, MembersLength, MembersNodes, MemberFits, NamesApart, ToLower, MemberLength;
      var members := v.members;
      ghost var b, n := bytes + 2, nodes;
      MembersFitWhole(members, depth, bytes, n - 1);
      if |members| > MAX_NODES - nodes { return false; }
      ok := Add(2);
      if !ok { return; }
      MembersFitPrefix(members, 0, depth, b, n);
      NoMembers(members);
      var seen: set<string> := {};
      for i := 0 to |members|
        invariant bytes == b + MembersLength(members[..i]) && nodes == n + MembersNodes(members[..i])
        invariant MembersFit(members[..i], depth, b, n)
        invariant forall x :: x in seen <==> NameSeen(members[..i], x)
      {
        MembersFitNext(members, i, depth, b, n);
        MembersFitPrefix(members, i + 1, depth, b, n);
        SeenNext(members, i);
        var lower := ToLower(members[i].name);
        if lower in seen { return false; }
        seen := seen + {lower};
        ok := WalkMember(members[i], i == 0, depth, v);
        if !ok { return; }
      }
      assert members[..|members|] == members;
      return true;
    }
  }

  /** Size: the number of bytes, or nothing. */
  method Size(v: Value) returns (bytes: Option<int>)
    ensures bytes.Some? <==> Fits(v, 0, 0, 0)
    ensures bytes.Some? ==> bytes.value == TextLength(v)
  {
    var w := new Walker();
    var ok := w.Walk(v, 0);
    return if ok then Some(w.bytes) else None;
  }
}
