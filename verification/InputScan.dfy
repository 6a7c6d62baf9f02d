/** internal/inputjson/budget.go: the scanner over decoder tokens, what it accepts, and
    its agreement with the walker whatever order the maps are walked in. */
module InputScan {
  import opened Text
  import opened Json
  import opened InputBudget

  // ------------------------------------------------------------------ token streams

  type ScalarValue = v: Value | !v.Arr? && !v.Obj? witness Null

  /** A decoder's tokens; commas and colons are not tokens. */
  datatype Token = Delim(c: char) | Scalar(v: ScalarValue)

  /** A text of so many bytes: its tokens, and whether a syntax error follows them. */
  datatype Document = Document(length: nat, tokens: seq<Token>, broken: bool)

  function Tokens(v: Value): (r: seq<Token>)
    ensures r != [] && More(r)
  {
    match v
    case Arr(items) => [Delim('[')] + ItemsTokens(items) + [Delim(']')]
    case Obj(members) => [Delim('{')] + MembersTokens(members) + [Delim('}')]
    case _ => [Scalar(v)]
  }

  function ItemsTokens(items: seq<Value>): seq<Token> {
    if items == [] then [] else Tokens(items[0]) + ItemsTokens(items[1..])
  }

  function MembersTokens(members: seq<Member>): seq<Token> {
    if members == [] then []
    else [Scalar(Str(members[0].name))] + Tokens(members[0].value) + MembersTokens(members[1..])
  }

  /** The document the encoder prints for a value. */
  function Printed(v: Value): Document { Document(TextLength(v), Tokens(v), false) }

  // -------------------------------------------------------------------- the scanner

  /** Decoder.More: the next token does not close. */
  predicate More(ts: seq<Token>) { ts != [] && ts[0] != Delim(']') && ts[0] != Delim('}') }

  datatype Scanned = Refused | Scanned(rest: seq<Token>, nodes: int)

  function ScanValue(ts: seq<Token>, depth: int, nodes: int): (r: Scanned)
    ensures r.Scanned? ==> |r.rest| < |ts|
    decreases |ts|, 1
  {
    if depth > MAX_DEPTH || nodes + 1 > MAX_NODES || ts == [] then Refused
    else if ts[0].Scalar? then Scanned(ts[1..], nodes + 1)
    else if ts[0].c == '{' then ScanMembers(ts[1..], depth, nodes + 1, {})
    else if ts[0].c == '[' then ScanItems(ts[1..], depth, nodes + 1)
    else Refused
  }

  function ScanItems(ts: seq<Token>, depth: int, nodes: int): (r: Scanned)
    ensures r.Scanned? ==> |r.rest| < |ts|
    decreases |ts|, 2
  {
    if !More(ts) then if ts != [] && ts[0] == Delim(']') then Scanned(ts[1..], nodes) else Refused
    else
      var r := ScanValue(ts, depth + 1, nodes);
      if r.Refused? then Refused else ScanItems(r.rest, depth, r.nodes)
  }

  function ScanMembers(ts: seq<Token>, depth: int, nodes: int, seen: set<string>): (r: Scanned)
    ensures r.Scanned? ==> |r.rest| < |ts|
    decreases |ts|, 0
  {
    if !More(ts) then if ts != [] && ts[0] == Delim('}') then Scanned(ts[1..], nodes) else Refused
    else if !ts[0].Scalar? || !ts[0].v.Str? || ToLower(ts[0].v.s) in seen then Refused
    else
      var r := ScanValue(ts[1..], depth + 1, nodes);
      if r.Refused? then Refused else ScanMembers(r.rest, depth, r.nodes, seen + {ToLower(ts[0].v.s)})
  }

  predicate Checks(d: Document) {
    d.length <= MAX_BYTES && !d.broken
    && ScanValue(d.tokens, 0, 0).Scanned? && ScanValue(d.tokens, 0, 0).rest == []
  }

  /** The decoder and the counter that CheckJSON's closure shares. */
  class Scanner {
    var rest: seq<Token>
    var nodes: int

    constructor (tokens: seq<Token>)
      ensures rest == tokens && nodes == 0
    {
      rest, nodes := tokens, 0;
    }

    method Scan(depth: int) returns (ok: bool)
      modifies this
      ensures ok <==> ScanValue(old(rest), depth, old(nodes)).Scanned?
      ensures ok ==> ScanValue(old(rest), depth, old(nodes)) == Scanned(rest, nodes)
      ensures |rest| <= |old(rest)| && (ok ==> |rest| < |old(rest)|)
      decreases |rest|
    {
      nodes := nodes + 1;
      if depth > MAX_DEPTH || nodes > MAX_NODES || rest == [] { return false; }
      var t := rest[0];
      rest := rest[1..];
      if t.Scalar? { return true; }
      if t.c == '{' {
        var seen: set<string> := {};
        ghost var all := ScanMembers(rest, depth, nodes, seen);
        while More(rest)
          invariant all == ScanMembers(rest, depth, nodes, seen) && |rest| < |old(rest)|
          decreases |rest|
        {
          var name := rest[0];
          rest := rest[1..];
          if !name.Scalar? || !name.v.Str? || ToLower(name.v.s) in seen { return false; }
          seen := seen + {ToLower(name.v.s)};
          ok := Scan(depth + 1);
          if !ok { return; }
        }
        if rest == [] || rest[0] != Delim('}') { return false; }
        rest := rest[1..];
        return true;
      }
      if t.c == '[' {
        ghost var all := ScanItems(rest, depth, nodes);
        while More(rest)
          invariant all == ScanItems(rest, depth, nodes) && |rest| < |old(rest)|
          decreases |rest|
        {
          ok := Scan(depth + 1);
          if !ok { return; }
        }
        if rest == [] || rest[0] != Delim(']') { return false; }
        rest := rest[1..];
        return true;
      }
      return false;
    }
  }

  method CheckJSON(d: Document) returns (ok: bool)
    ensures ok <==> Checks(d)
  {
    if d.length > MAX_BYTES { return false; }
    var s := new Scanner(d.tokens);
    ok := s.Scan(0);
    return ok && s.rest == [] && !d.broken;
  }

  // --------------------------------------------------------- scanning what was printed

  predicate Sound(v: Value, depth: int) { DepthWithin(v, MAX_DEPTH - depth) && NoTwins(v) }

  lemma {:induction false} ItemsNodesCons(items: seq<Value>)
    requires items != []
    ensures ItemsNodes(items) == Nodes(items[0]) + ItemsNodes(items[1..])
  {
    hide Nodes;
    var n := |items| - 1;
    if n > 0 {
      ItemsNodesCons(items[..n]);
      assert items[..n][1..] == items[1..][..n - 1];
    }
  }

  lemma {:induction false} MembersNodesCons(members: seq<Member>)
    requires members != []
    ensures MembersNodes(members) == Nodes(members[0].value) + MembersNodes(members[1..])
  {
    hide Nodes;
    var n := |members| - 1;
    if n > 0 {
      MembersNodesCons(members[..n]);
      assert members[..n][1..] == members[1..][..n - 1];
    }
  }

  predicate AllSound(items: seq<Value>, depth: int) { forall i :: 0 <= i < |items| ==> Sound(items[i], depth) }

  predicate MembersSound(members: seq<Member>, depth: int) {
    forall i :: 0 <= i < |members| ==> Sound(members[i].value, depth)
  }

  predicate Unseen(members: seq<Member>, seen: set<string>) {
    NamesApart(members) && forall i :: 0 <= i < |members| ==> ToLower(members[i].name) !in seen
  }

  /** Scanning a printed value consumes it exactly, and succeeds exactly within the limits. */
  lemma {:induction false} ScanPrinted(v: Value, rest: seq<Token>, depth: int, nodes: int)
    ensures ScanValue(Tokens(v) + rest, depth, nodes)
            == if nodes + Nodes(v) <= MAX_NODES && Sound(v, depth) then Scanned(rest, nodes + Nodes(v)) else Refused
    decreases v
  {
    var ts := Tokens(v) + rest;
    if depth <= MAX_DEPTH && nodes + 1 <= MAX_NODES {
      match v {
        case Arr(items) =>
          assert ts[1..] == ItemsTokens(items) + ([Delim(']')] + rest);
          ScanPrintedItems(items, rest, depth, nodes + 1);
        case Obj(members) =>
          assert ts[1..] == MembersTokens(members) + ([Delim('}')] + rest);
          ScanPrintedMembers(members, rest, depth, nodes + 1, {});
        case _ => assert ts[1..] == rest;
      }
    }
  }

  lemma {:induction false} ScanPrintedItems(items: seq<Value>, rest: seq<Token>, depth: int, nodes: int)
    requires nodes <= MAX_NODES
    ensures ScanItems(ItemsTokens(items) + ([Delim(']')] + rest), depth, nodes)
            == if nodes + ItemsNodes(items) <= MAX_NODES && AllSound(items, depth + 1)
               then Scanned(rest, nodes + ItemsNodes(items)) else Refused
    decreases items
  {
    hide Sound, Nodes, ScanValue, Tokens;
    var tail := [Delim(']')] + rest;
    if items == [] {
      assert ItemsTokens(items) + tail == tail && tail[1..] == rest;
    } else {
      var more := ItemsTokens(items[1..]) + tail;
      assert ItemsTokens(items) + tail == Tokens(items[0]) + more;
      ScanPrinted(items[0], more, depth + 1, nodes);
      ItemsNodesCons(items);
      AllSoundCons(items, depth + 1);
      if nodes + Nodes(items[0]) <= MAX_NODES { ScanPrintedItems(items[1..], rest, depth, nodes + Nodes(items[0])); }
    }
  }

  lemma AllSoundCons(items: seq<Value>, depth: int)
    requires items != []
    ensures AllSound(items, depth) <==> Sound(items[0], depth) && AllSound(items[1..], depth)
  {
    hide Sound;
    assert forall i :: 0 < i < |items| ==> items[i] == items[1..][i - 1];
  }

  lemma MembersSoundCons(members: seq<Member>, depth: int)
    requires members != []
    ensures MembersSound(members, depth) <==> Sound(members[0].value, depth) && MembersSound(members[1..], depth)
  {
    hide Sound;
    assert forall i :: 0 < i < |members| ==> members[i] == members[1..][i - 1];
  }

  lemma UnseenCons(members: seq<Member>, seen: set<string>)
    requires members != []
    ensures Unseen(members, seen) <==>
            ToLower(members[0].name) !in seen && Unseen(members[1..], seen + {ToLower(members[0].name)})
  {
    hide ToLower;
    assert forall i :: 0 < i < |members| ==> members[i] == members[1..][i - 1];
    if Unseen(members[1..], seen + {ToLower(members[0].name)}) && ToLower(members[0].name) !in seen {
      forall i, j | 0 <= i < j < |members| ensures ToLower(members[i].name) != ToLower(members[j].name) {
        assert members[j] == members[1..][j - 1];
        if i > 0 { assert members[i] == members[1..][i - 1]; }
      }
    }
    if Unseen(members, seen) {
      forall i, j | 0 <= i < j < |members[1..]| ensures ToLower(members[1..][i].name) != ToLower(members[1..][j].name) {
        assert members[1..][i] == members[i + 1] && members[1..][j] == members[j + 1];
      }
      forall i | 0 <= i < |members[1..]| ensures ToLower(members[1..][i].name) !in seen + {ToLower(members[0].name)} {
        assert members[1..][i] == members[i + 1];
      }
    }
  }

  lemma {:induction false} ScanPrintedMembers(
    members: seq<Member>, rest: seq<Token>, depth: int, nodes: int, seen: set<string>)
    requires nodes <= MAX_NODES
    ensures ScanMembers(MembersTokens(members) + ([Delim('}')] + rest), depth, nodes, seen)
            == if nodes + MembersNodes(members) <= MAX_NODES && MembersSound(members, depth + 1)
                && Unseen(members, seen)
               then Scanned(rest, nodes + MembersNodes(members)) else Refused
    decreases members
  {
    hide Sound, Nodes, ScanValue, Tokens, ToLower, NamesApart;
    var tail := [Delim('}')] + rest;
    if members == [] {
      assert MembersTokens(members) + tail == tail && tail[1..] == rest;
      assert Unseen(members, seen) by { NoNamesApart(); }
    } else {
      var m := members[0];
      var more := MembersTokens(members[1..]) + tail;
      var ts := MembersTokens(members) + tail;
      assert ts == [Scalar(Str(m.name))] + (Tokens(m.value) + more);
      assert ts[1..] == Tokens(m.value) + more;
      ScanPrinted(m.value, more, depth + 1, nodes);
      MembersNodesCons(members);
      MembersSoundCons(members, depth + 1);
      UnseenCons(members, seen);
      if nodes + Nodes(m.value) <= MAX_NODES {
        ScanPrintedMembers(members[1..], rest, depth, nodes + Nodes(m.value), seen + {ToLower(m.name)});
      }
    }
  }

  lemma NoNamesApart()
    ensures NamesApart([])
  {
  }

  // --------------------------------------------------------------- what is accepted

  /** Whatever the scanner consumes is the print of some value. */
  lemma {:induction false} ScannedIsPrinted(ts: seq<Token>, depth: int, nodes: int) returns (v: Value)
    requires ScanValue(ts, depth, nodes).Scanned?
    ensures ts == Tokens(v) + ScanValue(ts, depth, nodes).rest
    decreases |ts|, 1
  {
    if ts[0].Scalar? {
      v := ts[0].v;
    } else if ts[0].c == '{' {
      var members := MembersArePrinted(ts[1..], depth, nodes + 1, {});
      v := Obj(members);
      assert ts == [ts[0]] + ts[1..];
    } else {
      var items := ItemsArePrinted(ts[1..], depth, nodes + 1);
      v := Arr(items);
      assert ts == [ts[0]] + ts[1..];
    }
  }

  lemma {:induction false} ItemsArePrinted(ts: seq<Token>, depth: int, nodes: int) returns (items: seq<Value>)
    requires ScanItems(ts, depth, nodes).Scanned?
    ensures ts == ItemsTokens(items) + ([Delim(']')] + ScanItems(ts, depth, nodes).rest)
    decreases |ts|, 2
  {
    hide Tokens;
    if !More(ts) {
      items := [];
    } else {
      var first := ScannedIsPrinted(ts, depth + 1, nodes);
      var r := ScanValue(ts, depth + 1, nodes);
      var others := ItemsArePrinted(r.rest, depth, r.nodes);
      items := [first] + others;
      assert items[1..] == others;
    }
  }

  lemma {:induction false} MembersArePrinted(ts: seq<Token>, depth: int, nodes: int, seen: set<string>)
    returns (members: seq<Member>)
    requires ScanMembers(ts, depth, nodes, seen).Scanned?
    ensures ts == MembersTokens(members) + ([Delim('}')] + ScanMembers(ts, depth, nodes, seen).rest)
    decreases |ts|, 0
  {
    hide Tokens, ToLower;
    if !More(ts) {
      members := [];
    } else {
      var first := ScannedIsPrinted(ts[1..], depth + 1, nodes);
      var r := ScanValue(ts[1..], depth + 1, nodes);
      var others := MembersArePrinted(r.rest, depth, r.nodes, seen + {ToLower(ts[0].v.s)});
      members := [Member(ts[0].v.s, first)] + others;
      assert members[1..] == others && ts == [ts[0]] + ts[1..];
    }
  }

  /** CheckJSON accepts exactly the texts of trees within the limits. */
  lemma CheckAcceptsTrees(d: Document)
    ensures Checks(d) <==>
            && d.length <= MAX_BYTES && !d.broken
            && exists v :: d.tokens == Tokens(v) && Nodes(v) <= MAX_NODES && Sound(v, 0)
  {
    hide Tokens, ScanValue, Sound, Nodes;
    if ScanValue(d.tokens, 0, 0).Scanned? && ScanValue(d.tokens, 0, 0).rest == [] {
      var v := ScannedIsPrinted(d.tokens, 0, 0);
      assert d.tokens == Tokens(v) && d.tokens == Tokens(v) + [];
      ScanPrinted(v, [], 0, 0);
    }
    forall v | d.tokens == Tokens(v) && Nodes(v) <= MAX_NODES && Sound(v, 0)
      ensures ScanValue(d.tokens, 0, 0).Scanned? && ScanValue(d.tokens, 0, 0).rest == []
    {
      assert d.tokens == Tokens(v) + [];
      ScanPrinted(v, [], 0, 0);
    }
  }

  lemma PrintedChecks(v: Value)
    ensures Checks(Printed(v)) <==> Fits(v, 0, 0, 0)
  {
    hide Tokens, ScanValue, TextLength, DepthWithin, NoTwins, Nodes;
    assert Tokens(v) == Tokens(v) + [];
    ScanPrinted(v, [], 0, 0);
  }

  // ------------------------------------------------------------- map iteration order

  /** The same value with the members of any of its objects in another order. */
  ghost predicate Shuffled(v: Value, w: Value) {
    match v
    case Arr(items) =>
      w.Arr? && |items| == |w.items| && forall i :: 0 <= i < |items| ==> Shuffled(items[i], w.items[i])
    case Obj(members) =>
      w.Obj? && exists mid: seq<Member> ::
        multiset(mid) == multiset(w.members) && |mid| == |members|
        && forall i :: 0 <= i < |members| ==> members[i].name == mid[i].name && Shuffled(members[i].value, mid[i].value)
    case _ => v == w
  }

  function Total(members: seq<Member>, f: Member -> nat): nat {
    if members == [] then 0 else Total(members[..|members| - 1], f) + f(members[|members| - 1])
  }

  lemma {:induction false} TotalAppend(a: seq<Member>, b: seq<Member>, f: Member -> nat)
    ensures Total(a + b, f) == Total(a, f) + Total(b, f)
  {
    if b == [] {
      assert a + b == a;
    } else {
      var n := |b| - 1;
      assert (a + b)[..|a + b| - 1] == a + b[..n];
      TotalAppend(a, b[..n], f);
    }
  }

  lemma RemoveOne(a: seq<Member>, b: seq<Member>) returns (k: nat)
    requires multiset(a) == multiset(b) && a != []
    ensures k < |b| && b[k] == a[|a| - 1]
    ensures multiset(a[..|a| - 1]) == multiset(b[..k] + b[k + 1..])
  {
    var n := |a| - 1;
    assert a == a[..n] + [a[n]];
    assert a[n] in multiset(b);
    k :| 0 <= k < |b| && b[k] == a[n];
    assert b == b[..k] + [b[k]] + b[k + 1..];
    assert multiset(b) == multiset(b[..k] + b[k + 1..]) + multiset{b[k]};
    assert multiset(a) == multiset(a[..n]) + multiset{a[n]};
    assert multiset(b[..k] + b[k + 1..]) == multiset(b) - multiset{b[k]};
    assert multiset(a[..n]) == multiset(a) - multiset{a[n]};
  }

  lemma {:induction false} TotalForgetsOrder(a: seq<Member>, b: seq<Member>, f: Member -> nat)
    requires multiset(a) == multiset(b)
    ensures Total(a, f) == Total(b, f)
  {
    if a == [] {
      assert |multiset(b)| == 0;
    } else {
      var k := RemoveOne(a, b);
      TotalForgetsOrder(a[..|a| - 1], b[..k] + b[k + 1..], f);
      TotalAppend(b[..k], b[k + 1..], f);
      TotalAppend(b[..k], [b[k]] + b[k + 1..], f);
      TotalAppend([b[k]], b[k + 1..], f);
      assert b == b[..k] + ([b[k]] + b[k + 1..]);
    }
  }

  function Bytes(m: Member): nat { QuotedLength(m.name) + 1 + TextLength(m.value) }

  function MemberNodes(m: Member): nat { Nodes(m.value) }

  lemma {:induction false} LengthIsTotal(members: seq<Member>)
    ensures MembersLength(members) == Total(members, Bytes) + (if members == [] then 0 else |members| - 1)
  {
    hide TextLength, QuotedLength;
    if members != [] { LengthIsTotal(members[..|members| - 1]); }
  }

  lemma {:induction false} NodesAreTotal(members: seq<Member>)
    ensures MembersNodes(members) == Total(members, MemberNodes)
  {
    hide Nodes;
    if members != [] { NodesAreTotal(members[..|members| - 1]); }
  }

  lemma ApartForgetsOrder(a: seq<Member>, b: seq<Member>)
    requires multiset(a) == multiset(b) && NamesApart(a)
    ensures NamesApart(b)
  {
    hide ToLower;
    var key := (m: Member) => ToLower(m.name);
    assert DistinctBy(a, key);
    DistinctPermutation(a, b, key);
  }

  lemma PermutedAgrees(a: seq<Member>, b: seq<Member>, room: int)
    requires multiset(a) == multiset(b)
    ensures MembersLength(a) == MembersLength(b) && MembersNodes(a) == MembersNodes(b)
    ensures DepthWithin(Obj(a), room) <==> DepthWithin(Obj(b), room)
    ensures NoTwins(Obj(a)) <==> NoTwins(Obj(b))
  {
    hide TextLength, QuotedLength, Nodes, NamesApart;
    SameElements(a, b);
    assert |a| == |b| by { assert |multiset(a)| == |a| && |multiset(b)| == |b|; }
    LengthIsTotal(a);
    LengthIsTotal(b);
    TotalForgetsOrder(a, b, Bytes);
    NodesAreTotal(a);
    NodesAreTotal(b);
    TotalForgetsOrder(a, b, MemberNodes);
    if NamesApart(a) { ApartForgetsOrder(a, b); }
    if NamesApart(b) { ApartForgetsOrder(b, a); }
    MembersByElement(a, room);
    MembersByElement(b, room);
  }

  lemma MembersByElement(a: seq<Member>, room: int)
    ensures DepthWithin(Obj(a), room) <==> room >= 0 && forall m :: m in a ==> DepthWithin(m.value, room - 1)
    ensures NoTwins(Obj(a)) <==> NamesApart(a) && forall m :: m in a ==> NoTwins(m.value)
  {
    hide NamesApart;
  }

  ghost predicate ItemsShuffled(a: seq<Value>, b: seq<Value>) {
    |a| == |b| && forall i :: 0 <= i < |a| ==> Shuffled(a[i], b[i])
  }

  ghost predicate MembersShuffled(a: seq<Member>, b: seq<Member>) {
    |a| == |b| && forall i :: 0 <= i < |a| ==> a[i].name == b[i].name && Shuffled(a[i].value, b[i].value)
  }

  /** Length, nodes, depth and names do not depend on any map's order. */
  lemma {:induction false} ShuffledAgrees(v: Value, w: Value, room: int)
    requires Shuffled(v, w)
    ensures TextLength(v) == TextLength(w) && Nodes(v) == Nodes(w)
    ensures DepthWithin(v, room) <==> DepthWithin(w, room)
    ensures NoTwins(v) <==> NoTwins(w)
    decreases v
  {
    hide DepthWithin, NoTwins, ItemsLength, MembersLength, ItemsNodes, MembersNodes;
    match v
    case Arr(items) => ItemsAgree(items, w.items, room);
    case Obj(members) =>
      var mid := Reordered(members, w);
      MembersAgree(members, mid, room);
      PermutedAgrees(mid, w.members, room);
    case _ =>
  }

  lemma Reordered(members: seq<Member>, w: Value) returns (mid: seq<Member>)
    requires Shuffled(Obj(members), w)
    ensures w.Obj? && multiset(mid) == multiset(w.members) && MembersShuffled(members, mid)
  {
    mid :| multiset(mid) == multiset(w.members) && |mid| == |members|
           && forall i :: 0 <= i < |members|
               ==> members[i].name == mid[i].name && Shuffled(members[i].value, mid[i].value);
  }

  lemma {:induction false} ItemsAgree(a: seq<Value>, b: seq<Value>, room: int)
    requires ItemsShuffled(a, b)
    ensures ItemsLength(a) == ItemsLength(b) && ItemsNodes(a) == ItemsNodes(b)
    ensures DepthWithin(Arr(a), room) <==> DepthWithin(Arr(b), room)
    ensures NoTwins(Arr(a)) <==> NoTwins(Arr(b))
    decreases a
  {
    hide Shuffled, TextLength, Nodes;
    if a != [] {
      var n := |a| - 1;
      ItemsAgree(a[..n], b[..n], room);
      ShuffledAgrees(a[n], b[n], room - 1);
      ArrSnoc(a, room);
      ArrSnoc(b, room);
    }
  }

  lemma ArrSnoc(a: seq<Value>, room: int)
    requires a != []
    ensures DepthWithin(Arr(a), room) <==>
            DepthWithin(Arr(a[..|a| - 1]), room) && DepthWithin(a[|a| - 1], room - 1)
    ensures NoTwins(Arr(a)) <==> NoTwins(Arr(a[..|a| - 1])) && NoTwins(a[|a| - 1])
  {
    assert forall i :: 0 <= i < |a| - 1 ==> a[..|a| - 1][i] == a[i];
  }

  lemma {:induction false} MembersAgree(a: seq<Member>, b: seq<Member>, room: int)
    requires MembersShuffled(a, b)
    ensures MembersLength(a) == MembersLength(b) && MembersNodes(a) == MembersNodes(b)
    ensures DepthWithin(Obj(a), room) <==> DepthWithin(Obj(b), room)
    ensures NoTwins(Obj(a)) <==> NoTwins(Obj(b))
    decreases a
  {
    hide Shuffled, TextLength, Nodes, NamesApart, QuotedLength;
    if a != [] {
      var n := |a| - 1;
      MembersAgree(a[..n], b[..n], room);
      ShuffledAgrees(a[n].value, b[n].value, room - 1);
      ObjSnoc(a, room);
      ObjSnoc(b, room);
      SameNamesApart(a, b);
      SameNamesApart(a[..n], b[..n]);
    }
  }

  lemma SameNamesApart(a: seq<Member>, b: seq<Member>)
    requires |a| == |b| && forall i :: 0 <= i < |a| ==> a[i].name == b[i].name
    ensures NamesApart(a) <==> NamesApart(b)
  {
    hide ToLower;
  }

  lemma ObjSnoc(a: seq<Member>, room: int)
    requires a != []
    ensures DepthWithin(Obj(a), room) <==>
            DepthWithin(Obj(a[..|a| - 1]), room) && DepthWithin(a[|a| - 1].value, room - 1)
    ensures NoTwins(Obj(a)) <==> NoTwins(Obj(a[..|a| - 1])) && NoTwins(a[|a| - 1].value) && NamesApart(a)
  {
    hide ToLower;
    var n := |a| - 1;
    assert forall i :: 0 <= i < n ==> a[..n][i] == a[i];
    if NamesApart(a) {
      forall i, j | 0 <= i < j < n ensures ToLower(a[..n][i].name) != ToLower(a[..n][j].name) {
        assert ToLower(a[i].name) != ToLower(a[j].name);
      }
    }
  }

  /** The walker accepts a value exactly when the scanner accepts the text printed for
      it, the number is that text's length, and the order of maps never matters. */
  lemma WalkerAgreesWithScanner(v: Value, w: Value)
    requires Shuffled(v, w)
    ensures Fits(v, 0, 0, 0) <==> Checks(Printed(w))
    ensures TextLength(v) == Printed(w).length
  {
    hide Shuffled, TextLength, DepthWithin, NoTwins, Nodes, Checks;
    ShuffledAgrees(v, w, MAX_DEPTH);
    PrintedChecks(w);
  }
}
