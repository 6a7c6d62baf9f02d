/** The small part of Go's string, decimal and ordering library that the other
    modules rest on: ASCII letter case, trimming, cutting, decimal text and the
    byte order used by every sort. */
module Text {

  datatype Option<+T> = None | Some(value: T)

  // ---------------------------------------------------------------- characters

  predicate IsDigit(c: char) { '0' <= c <= '9' }

  predicate IsLower(c: char) { 'a' <= c <= 'z' }

  predicate IsUpper(c: char) { 'A' <= c <= 'Z' }

  predicate IsSpace(c: char) { c == ' ' || 9 <= (c as int) <= 13 }

  predicate AllDigits(s: string) { forall i :: 0 <= i < |s| ==> IsDigit(s[i]) }

  function LowerChar(c: char): char {
    if IsUpper(c) then ((c as int) - ('A' as int) + ('a' as int)) as char else c
  }

  function ToLower(s: string): (r: string)
    ensures |r| == |s|
    ensures forall i :: 0 <= i < |s| ==> r[i] == LowerChar(s[i])
  {
    seq(|s|, i requires 0 <= i < |s| => LowerChar(s[i]))
  }

  function TrimLeftSpace(s: string): string {
    if s != "" && IsSpace(s[0]) then TrimLeftSpace(s[1..]) else s
  }

  function TrimRightSpace(s: string): string {
    if s != "" && IsSpace(s[|s| - 1]) then TrimRightSpace(s[..|s| - 1]) else s
  }

  function TrimSpace(s: string): string { TrimRightSpace(TrimLeftSpace(s)) }

  function TrimPrefix(s: string, prefix: string): string {
    if prefix <= s then s[|prefix|..] else s
  }

  /** strings.Cut: the text before and after the first separator. */
  function Cut(s: string, sep: char): (string, string, bool) {
    if s == "" then ("", "", false)
    else if s[0] == sep then ("", s[1..], true)
    else var (before, after, found) := Cut(s[1..], sep); ([s[0]] + before, after, found)
  }

  lemma {:induction false} CutFound(before: string, sep: char, after: string)
    requires sep !in before
    ensures Cut(before + [sep] + after, sep) == (before, after, true)
  {
    var s := before + [sep] + after;
    if before == "" {
      assert s[1..] == after;
    } else {
      assert s[1..] == before[1..] + [sep] + after;
      CutFound(before[1..], sep, after);
      assert [s[0]] + before[1..] == before;
    }
  }

  lemma {:induction false} CutMissing(s: string, sep: char)
    requires sep !in s
    ensures Cut(s, sep) == (s, "", false)
  {
    if s != "" {
      CutMissing(s[1..], sep);
      assert [s[0]] + s[1..] == s;
    }
  }

  /** The text before and after the last dot; no dot leaves the qualifier empty. */
  function CutLast(s: string): (string, string) {
    if s == "" then ("", "")
    else if '.' in s[1..] then (([s[0]] + CutLast(s[1..]).0), CutLast(s[1..]).1)
    else if s[0] == '.' then ("", s[1..])
    else ("", s)
  }

  // ------------------------------------------------------------------- decimal

  function DigitValue(c: char): (d: nat)
    requires IsDigit(c)
    ensures d < 10
  {
    (c as int) - ('0' as int)
  }

  function DigitChar(d: nat): (c: char)
    requires d < 10
    ensures IsDigit(c) && DigitValue(c) == d
  {
    (d + ('0' as int)) as char
  }

  /** The number a run of digits denotes; the empty run is zero. */
  function NatOf(s: string): nat
    requires AllDigits(s)
  {
    if s == "" then 0 else 10 * NatOf(s[..|s| - 1]) + DigitValue(s[|s| - 1])
  }

  function FormatNat(n: nat): (s: string)
    ensures s != "" && AllDigits(s) && NatOf(s) == n
    ensures s[0] == '0' ==> s == "0"
  {
    if n < 10 then [DigitChar(n)]
    else
      var s := FormatNat(n / 10) + [DigitChar(n % 10)];
      assert s[..|s| - 1] == FormatNat(n / 10);
      s
  }

  function Power10(k: nat): nat { if k == 0 then 1 else 10 * Power10(k - 1) }

  lemma {:induction false} DigitCount(n: nat, k: nat)
    requires n < Power10(k) && k >= 1
    ensures |FormatNat(n)| <= k
  {
    if n >= 10 { DigitCount(n / 10, k - 1); }
  }

  function FormatInt(n: int): string {
    if n < 0 then "-" + FormatNat(-n) else FormatNat(n)
  }

  const POW63 := 0x8000_0000_0000_0000
  const POW64 := 0x1_0000_0000_0000_0000

  /** How many values an integer of this Go width has: 8, 16, 32 or 64 bits. */
  function WidthRange(bits: nat): nat {
    if bits == 8 then 0x100 else if bits == 16 then 0x1_0000 else if bits == 32 then 0x1_0000_0000 else POW64
  }

  /** strconv.ParseUint with base 10: digits only, refused outside the width. */
  function ParseUint(s: string, bits: nat): Option<nat> {
    if s == "" || !AllDigits(s) || NatOf(s) >= WidthRange(bits) then None else Some(NatOf(s))
  }

  /** strconv.ParseInt with base 10: one optional sign, refused outside the width. */
  function ParseInt(s: string, bits: nat): Option<int> {
    var neg := s != "" && s[0] == '-';
    var digits := if s != "" && (s[0] == '-' || s[0] == '+') then s[1..] else s;
    if digits == "" || !AllDigits(digits) then None
    else
      var n: int := if neg then -(NatOf(digits) as int) else NatOf(digits);
      if -(WidthRange(bits) / 2) <= n < WidthRange(bits) / 2 then Some(n) else None
  }

  lemma ParseFormatInt(n: int, bits: nat)
    ensures ParseInt(FormatInt(n), bits) == if -(WidthRange(bits) / 2) <= n < WidthRange(bits) / 2 then Some(n)
            else None
    ensures 0 <= n < WidthRange(bits) ==> ParseUint(FormatInt(n), bits) == Some(n)
  {
    if n < 0 { assert FormatInt(n)[1..] == FormatNat(-n); }
  }

  // ------------------------------------------------------------------ ordering

  /** Byte order of two strings, as in sort.Strings. */
  predicate Less(a: string, b: string) {
    b != "" && (a == "" || a[0] < b[0] || (a[0] == b[0] && Less(a[1..], b[1..])))
  }

  lemma {:induction false} LessIrreflexive(a: string)
    ensures !Less(a, a)
  {
    if a != "" { LessIrreflexive(a[1..]); }
  }

  lemma {:induction false} LessTransitive(a: string, b: string, c: string)
    requires Less(a, b) && Less(b, c)
    ensures Less(a, c)
  {
    if a != "" && a[0] == b[0] == c[0] { LessTransitive(a[1..], b[1..], c[1..]); }
  }

  lemma {:induction false} LessTotal(a: string, b: string)
    ensures Less(a, b) || a == b || Less(b, a)
  {
    if a != "" && b != "" && a[0] == b[0] {
      LessTotal(a[1..], b[1..]);
      assert a == [a[0]] + a[1..] && b == [b[0]] + b[1..];
    }
  }

  // ------------------------------------------- sorting records by a string key

  ghost predicate SortedBy<T(!new)>(s: seq<T>, key: T -> string) {
    forall i, j :: 0 <= i < j < |s| ==> Less(key(s[i]), key(s[j]))
  }

  predicate DistinctBy<T(!new)>(s: seq<T>, key: T -> string) {
    forall i, j :: 0 <= i < j < |s| ==> key(s[i]) != key(s[j])
  }

  function InsertBy<T>(x: T, s: seq<T>, key: T -> string): (r: seq<T>)
    ensures multiset(r) == multiset{x} + multiset(s)
  {
    if s == [] then [x]
    else if Less(key(x), key(s[0])) then [x] + s
    else
      assert s == [s[0]] + s[1..];
      [s[0]] + InsertBy(x, s[1..], key)
  }

  /** What sort.Slice leaves behind when it orders records by one string field. */
  function SortBy<T>(s: seq<T>, key: T -> string): (r: seq<T>)
    ensures multiset(r) == multiset(s)
  {
    if s == [] then []
    else
      assert s == [s[0]] + s[1..];
      InsertBy(s[0], SortBy(s[1..], key), key)
  }

  lemma SameElements<T>(s: seq<T>, t: seq<T>)
    requires multiset(s) == multiset(t)
    ensures |s| == |t|
    ensures forall x :: x in s <==> x in t
  {
    assert |s| == |multiset(s)|;
    forall x ensures x in s <==> x in t {
      assert x in s <==> x in multiset(s);
      assert x in t <==> x in multiset(t);
    }
  }

  lemma {:induction false} InsertBySorted<T(!new)>(x: T, s: seq<T>, key: T -> string)
    requires SortedBy(s, key)
    requires forall y :: y in s ==> key(y) != key(x)
    ensures SortedBy(InsertBy(x, s, key), key)
  {
    if s != [] {
      LessTotal(key(x), key(s[0]));
      if Less(key(x), key(s[0])) {
        forall i | 1 <= i < |s| ensures Less(key(x), key(s[i])) {
          LessTransitive(key(x), key(s[0]), key(s[i]));
        }
      } else {
        InsertBySorted(x, s[1..], key);
        var rest := InsertBy(x, s[1..], key);
        SameElements(rest, [x] + s[1..]);
        forall i | 0 <= i < |rest| ensures Less(key(s[0]), key(rest[i])) {
          assert rest[i] in rest;
        }
      }
    }
  }

  lemma {:induction false} SortBySorted<T(!new)>(s: seq<T>, key: T -> string)
    requires DistinctBy(s, key)
    ensures SortedBy(SortBy(s, key), key)
  {
    if s != [] {
      SortBySorted(s[1..], key);
      SameElements(SortBy(s[1..], key), s[1..]);
      InsertBySorted(s[0], SortBy(s[1..], key), key);
    }
  }

  /** Two sorted listings of the same records are the same list. */
  lemma {:induction false} SortedUnique<T(!new)>(s: seq<T>, t: seq<T>, key: T -> string)
    requires SortedBy(s, key) && SortedBy(t, key)
    requires forall x :: x in s <==> x in t
    ensures s == t
  {
    assert s != [] ==> s[0] in t;
    assert t != [] ==> t[0] in s;
    if s != [] {
      if s[0] != t[0] {
        assert Less(key(t[0]), key(s[0])) && Less(key(s[0]), key(t[0]));
        LessTransitive(key(s[0]), key(t[0]), key(s[0]));
        LessIrreflexive(key(s[0]));
      }
      forall x ensures x in s[1..] <==> x in t[1..] {
        SortedTail(s, key, x);
        SortedTail(t, key, x);
      }
      SortedUnique(s[1..], t[1..], key);
      assert s == [s[0]] + s[1..] && t == [t[0]] + t[1..];
    }
  }

  lemma SortedTail<T(!new)>(s: seq<T>, key: T -> string, x: T)
    requires s != [] && SortedBy(s, key)
    ensures x in s[1..] <==> x in s && x != s[0]
  {
    if s[0] in s[1..] {
      var i :| 1 <= i < |s| && s[i] == s[0];
      LessIrreflexive(key(s[0]));
    }
    if x in s && x != s[0] {
      var i :| 0 <= i < |s| && s[i] == x;
      assert s[1..][i - 1] == x;
    }
  }

  /** The order in which distinct records arrive does not show after sorting. */
  lemma SortByForgetsOrder<T(!new)>(s: seq<T>, t: seq<T>, key: T -> string)
    requires multiset(s) == multiset(t) && DistinctBy(s, key)
    ensures SortBy(s, key) == SortBy(t, key)
    ensures DistinctBy(t, key)
  {
    SameElements(s, t);
    DistinctPermutation(s, t, key);
    SortBySorted(s, key);
    SortBySorted(t, key);
    SameElements(SortBy(s, key), s);
    SameElements(SortBy(t, key), t);
    SortedUnique(SortBy(s, key), SortBy(t, key), key);
  }

  lemma DistinctPermutation<T(!new)>(s: seq<T>, t: seq<T>, key: T -> string)
    requires multiset(s) == multiset(t) && DistinctBy(s, key)
    ensures DistinctBy(t, key)
  {
    forall i, j | 0 <= i < j < |t| ensures key(t[i]) != key(t[j]) {
      SameElements(s, t);
      assert t[i] in s && t[j] in s;
      if t[i] == t[j] {
        assert t == t[..i] + [t[i]] + t[i + 1..j] + [t[j]] + t[j + 1..];
        assert multiset(s)[t[i]] >= 2;
        OnceEach(s, key, t[i]);
      } else {
        var a :| 0 <= a < |s| && s[a] == t[i];
        var b :| 0 <= b < |s| && s[b] == t[j];
        assert a != b;
      }
    }
  }

  lemma {:induction false} OnceEach<T(!new)>(s: seq<T>, key: T -> string, x: T)
    requires DistinctBy(s, key)
    ensures multiset(s)[x] <= 1
  {
    if s != [] {
      assert s == [s[0]] + s[1..];
      OnceEach(s[1..], key, x);
      if s[0] == x {
        assert forall i :: 1 <= i < |s| ==> s[i] != x;
        assert x !in s[1..];
      }
    }
  }

  // ----------------------------------------------------- the keys of a Go map

  function Self(s: string): string { s }

  /** The names of a finite set in byte order, whatever order they were met in. */
  ghost function SortedNames(names: set<string>): (r: seq<string>)
    ensures SortedBy(r, Self)
    ensures forall x :: x in r <==> x in names
    ensures |r| == |names|
  {
    if names == {} then []
    else
      var x :| x in names;
      var rest := SortedNames(names - {x});
      var r := InsertBy(x, rest, Self);
      InsertBySorted(x, rest, Self);
      SameElements(r, [x] + rest);
      r
  }

  /** Sorting the keys of a map gives one list, however the map was walked. */
  lemma SortedWalk(walk: seq<string>, names: set<string>)
    requires DistinctBy(walk, Self)
    requires forall x :: x in walk <==> x in names
    ensures SortBy(walk, Self) == SortedNames(names)
  {
    SortBySorted(walk, Self);
    SameElements(SortBy(walk, Self), walk);
    SortedUnique(SortBy(walk, Self), SortedNames(names), Self);
  }
}
