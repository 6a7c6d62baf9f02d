/** What the reader makes of any stream at all, by the lines it is made of: blank lines,
    a line of its own, a length with its headers and body, or a stream that breaks off. */
module FramingShapes {
  import opened Text
  import opened Framing

  // ------------------------------------------------------------------------- lines

  /** A line of the stream, without its line feed. */
  predicate RawLine(s: string) { '\n' !in s }

  predicate Blank(s: string) { forall i :: 0 <= i < |s| ==> IsSpace(s[i]) }

  const LOWER := "content-length:"
  const UPPER := "CONTENT-LENGTH:"

  /** The line begins with "Content-Length:" in any case. */
  predicate LengthLine(s: string) {
    15 <= |s| && forall k :: 0 <= k < 15 ==> s[k] == LOWER[k] || s[k] == UPPER[k]
  }

  /** The number a length line declares, when it is one the reader takes. */
  function DeclaredLength(line: string): Option<int>
    requires LengthLine(line)
  {
    var n := ParseInt(TrimSpace(line[15..]), 64);
    if n.Some? && 0 <= n.value <= 0x10_0000 then n else None
  }

  /** The text of a line: without the carriage returns at its end. */
  predicate TextOf(line: string, text: string) {
    && text <= line && (forall k :: |text| <= k < |line| ==> line[k] == '\r')
    && (text != "" ==> text[|text| - 1] != '\r')
  }

  function Joined(ls: seq<string>): string { if ls == [] then "" else ls[0] + "\n" + Joined(ls[1..]) }

  predicate Blanks(ls: seq<string>) { forall i :: 0 <= i < |ls| ==> RawLine(ls[i]) && Blank(ls[i]) }

  predicate Headings(ls: seq<string>) { forall i :: 0 <= i < |ls| ==> RawLine(ls[i]) && !Blank(ls[i]) }

  predicate NoLengths(ls: seq<string>) { forall i :: 0 <= i < |ls| ==> !LengthLine(ls[i]) }

  // ------------------------------------------------------- the reader's view of one

  lemma {:induction false} TrimmedIsText(s: string)
    requires RawLine(s)
    ensures TextOf(s, TrimLineEnd(s))
    decreases |s|
  {
    if s != "" {
      var init := s[..|s| - 1];
      assert s[|s| - 1] in s;
      if s[|s| - 1] == '\r' { TrimmedIsText(init); }
    }
  }

  lemma {:induction false} TrimRightMeans(s: string)
    ensures TrimRightSpace(s) == "" <==> Blank(s)
  {
    if s != "" {
      var init := s[..|s| - 1];
      TrimRightMeans(init);
      assert Blank(s) <==> Blank(init) && IsSpace(s[|s| - 1]);
    }
  }

  lemma {:induction false} TrimLeftMeans(s: string)
    ensures Blank(TrimLeftSpace(s)) <==> Blank(s)
  {
    if s != "" {
      TrimLeftMeans(s[1..]);
      assert Blank(s) <==> IsSpace(s[0]) && Blank(s[1..]) by {
        if IsSpace(s[0]) && Blank(s[1..]) {
          forall i | 0 <= i < |s| ensures IsSpace(s[i]) { if i > 0 { assert s[i] == s[1..][i - 1]; } }
        }
        if Blank(s) { forall i | 0 <= i < |s[1..]| ensures IsSpace(s[1..][i]) { assert s[1..][i] == s[i + 1]; } }
      }
    }
  }

  lemma BlankMeans(s: string)
    requires RawLine(s)
    ensures TrimSpace(TrimLineEnd(s)) == "" <==> Blank(s)
  {
    var t := TrimLineEnd(s);
    TrimmedIsText(s);
    TrimLeftMeans(t);
    TrimRightMeans(TrimLeftSpace(t));
    if Blank(t) {
      forall i | 0 <= i < |s| ensures IsSpace(s[i]) { if i < |t| { assert t[i] == s[i]; } }
    }
    if Blank(s) { forall i | 0 <= i < |t| ensures IsSpace(t[i]) { assert t[i] == s[i]; } }
  }

  lemma LengthMeans(s: string)
    requires RawLine(s)
    ensures IsLength(TrimLineEnd(s)) <==> LengthLine(s)
  {
    hide TrimLineEnd;
    var t := TrimLineEnd(s);
    TrimmedIsText(s);
    if |t| >= 15 {
      CaseMeans(t);
      assert forall k :: 0 <= k < 15 ==> t[k] == s[k];
    } else if |s| >= 15 {
      assert s[14] == '\r';
    }
  }

  lemma CaseMeans(t: string)
    requires |t| >= 15
    ensures IsLength(t) <==> LengthLine(t)
  {
    forall k | 0 <= k < 15 ensures LowerChar(t[k]) == LOWER[k] <==> t[k] == LOWER[k] || t[k] == UPPER[k] {
      LetterMeans(t[k], k);
    }
    assert LOWER <= ToLower(t) <==> forall k :: 0 <= k < 15 ==> ToLower(t)[k] == LOWER[k];
  }

  lemma LetterMeans(c: char, k: nat)
    requires k < 15
    ensures LowerChar(c) == LOWER[k] <==> c == LOWER[k] || c == UPPER[k]
  {
    assert LowerChar(UPPER[k]) == LOWER[k];
    assert !IsUpper(LOWER[k]);
  }

  /** One raw line read against the budget. */
  lemma LineRead(s: string, after: string, budget: nat)
    requires RawLine(s)
    ensures NextLine(s + "\n" + after, budget) ==
            if |s| < budget then Line(TrimLineEnd(s), after, budget - |s| - 1) else BadLine
  {
    hide TrimLineEnd;
    if |s| < budget { NextLineIs(s, after, budget); } else { LineBreakIs(s, after); }
  }

  lemma JoinedFirst(ls: seq<string>, after: string)
    requires ls != []
    ensures Joined(ls) + after == ls[0] + "\n" + (Joined(ls[1..]) + after)
    ensures |Joined(ls)| == |ls[0]| + 1 + |Joined(ls[1..])|
  {
  }

  /** Blank lines are passed over and charged. */
  lemma {:induction false} BlanksArePassed(blanks: seq<string>, after: string, budget: nat)
    requires Blanks(blanks)
    ensures FirstLine(Joined(blanks) + after, budget) ==
            if |Joined(blanks)| <= budget then FirstLine(after, budget - |Joined(blanks)|)
            else BadLine
  {
    hide NextLine, TrimSpace, TrimLineEnd;
    if blanks == [] {
      assert Joined(blanks) + after == after;
    } else {
      JoinedFirst(blanks, after);
      LineRead(blanks[0], Joined(blanks[1..]) + after, budget);
      BlankMeans(blanks[0]);
      if |blanks[0]| < budget { BlanksArePassed(blanks[1..], after, budget - |blanks[0]| - 1); }
    }
  }

  lemma HeadIsRead(line: string, after: string, budget: nat)
    requires RawLine(line) && !Blank(line)
    ensures FirstLine(line + "\n" + after, budget) ==
            if |line| < budget then Line(TrimLineEnd(line), after, budget - |line| - 1) else BadLine
  {
    hide NextLine, TrimSpace, TrimLineEnd;
    LineRead(line, after, budget);
    BlankMeans(line);
  }

  /** Headers are passed over and charged, unless one declares a length again. */
  lemma {:induction false} HeadersArePassed(hs: seq<string>, after: string, budget: nat)
    requires Headings(hs)
    ensures Headers(Joined(hs) + after, budget) ==
            if |Joined(hs)| <= budget && NoLengths(hs) then Headers(after, budget - |Joined(hs)|) else None
  {
    hide NextLine, TrimSpace, TrimLineEnd, IsLength, LengthLine;
    if hs == [] {
      assert Joined(hs) + after == after;
    } else {
      JoinedFirst(hs, after);
      LineRead(hs[0], Joined(hs[1..]) + after, budget);
      BlankMeans(hs[0]);
      LengthMeans(hs[0]);
      assert NoLengths(hs) <==> !LengthLine(hs[0]) && NoLengths(hs[1..]) by {
        assert forall i :: 0 < i < |hs| ==> hs[i] == hs[1..][i - 1];
      }
      if |hs[0]| < budget && !LengthLine(hs[0]) { HeadersArePassed(hs[1..], after, budget - |hs[0]| - 1); }
    }
  }

  lemma HeadersEnd(blank: string, body: string, budget: nat)
    requires RawLine(blank) && Blank(blank)
    ensures Headers(blank + "\n" + body, budget) == if |blank| < budget then Some(body) else None
  {
    hide NextLine, TrimSpace, TrimLineEnd;
    LineRead(blank, body, budget);
    BlankMeans(blank);
  }

  lemma TailIsBad(tail: string, budget: nat)
    requires RawLine(tail)
    ensures NextLine(tail, budget) == if tail == "" then NoLine else BadLine
    ensures FirstLine(tail, budget) == NextLine(tail, budget) && Headers(tail, budget) == None
  {
    if tail != "" { PartialLine(tail, budget); }
  }

  // ------------------------------------------------------------- the declared length

  lemma {:induction false} TrimRightOne(s: string)
    ensures TrimRightSpace(s + "\r") == TrimRightSpace(s)
  {
    assert (s + "\r")[..|s|] == s;
  }

  lemma {:induction false} TrimOne(s: string)
    ensures TrimSpace(s + "\r") == TrimSpace(s)
  {
    if s == "" {
      assert s + "\r" == "\r" && "\r"[1..] == "";
    } else if IsSpace(s[0]) {
      assert (s + "\r")[1..] == s[1..] + "\r";
      TrimOne(s[1..]);
    } else {
      TrimRightOne(s);
    }
  }

  lemma {:induction false} TrimReturns(s: string, n: nat)
    requires n <= |s| && forall k :: n <= k < |s| ==> s[k] == '\r'
    ensures TrimSpace(s) == TrimSpace(s[..n])
  {
    hide TrimSpace;
    if n < |s| {
      var init := s[..|s| - 1];
      assert s == init + "\r" && init[..n] == s[..n];
      TrimOne(init);
      TrimReturns(init, n);
    } else {
      assert s[..n] == s;
    }
  }

  /** The reader's number is that of the text behind the colon. */
  lemma LengthRead(line: string)
    requires RawLine(line) && LengthLine(line)
    ensures TrimSpace(Cut(TrimLineEnd(line), ':').1) == TrimSpace(line[15..])
  {
    hide TrimSpace, TrimLineEnd, Cut;
    var t := TrimLineEnd(line);
    TrimmedIsText(line);
    assert line[14] == ':' && |t| >= 15;
    forall k | 0 <= k < 14 ensures t[k] != ':' { assert t[k] == LOWER[k] || t[k] == UPPER[k]; }
    assert t == t[..14] + [':'] + t[15..];
    CutFound(t[..14], ':', t[15..]);
    assert line[15..][..|t| - 15] == t[15..];
    TrimReturns(line[15..], |t| - 15);
  }

  // ------------------------------------------------------------------ whole streams

  const LIMIT := 0x10_0000

  /** Blank lines and then a line that declares no length: the line's text is the message,
      and what follows it is left. */
  lemma PlainLineIsRead(blanks: seq<string>, line: string, text: string, rest: string)
    requires Blanks(blanks) && RawLine(line) && !Blank(line) && !LengthLine(line) && TextOf(line, text)
    ensures Read(Joined(blanks) + line + "\n" + rest) ==
            if |Joined(blanks)| + |line| < LIMIT then Message(text, rest) else Broken
  {
    hide FirstLine, Framed, IsLength, Joined, TrimLineEnd, Blank, LengthLine;
    assert Joined(blanks) + line + "\n" + rest == Joined(blanks) + (line + "\n" + rest);
    BlanksArePassed(blanks, line + "\n" + rest, LIMIT);
    if |Joined(blanks)| <= LIMIT { HeadIsRead(line, rest, LIMIT - |Joined(blanks)|); }
    LengthMeans(line);
    TrimmedIsText(line);
    OneText(line, text, TrimLineEnd(line));
  }

  lemma OneText(line: string, a: string, b: string)
    requires TextOf(line, a) && TextOf(line, b)
    ensures a == b
  {
    assert a == line[..|a|] && b == line[..|b|];
    assert b != "" ==> line[|b| - 1] == b[|b| - 1];
    assert a != "" ==> line[|a| - 1] == a[|a| - 1];
  }

  /** Blank lines, a length, headers, a blank line: the next bytes of that number are the
      message. It is refused when the number is none the reader takes, when a header declares
      a length again, when the lines exceed the budget and when the body is too short. */
  lemma FramedIsRead(blanks: seq<string>, line: string, hs: seq<string>, blank: string, body: string)
    requires Blanks(blanks) && RawLine(line) && LengthLine(line) && Headings(hs) && RawLine(blank) && Blank(blank)
    ensures var n := DeclaredLength(line);
            var fits := |Joined(blanks)| + |line| + 1 + |Joined(hs)| + |blank| < LIMIT;
            Read(Joined(blanks) + line + "\n" + Joined(hs) + blank + "\n" + body) ==
            if fits && NoLengths(hs) && n.Some? && n.value <= |body| then Message(body[..n.value], body[n.value..])
            else Broken
  {
    hide FirstLine, Headers, IsLength, Joined, TrimLineEnd, Blank, LengthLine, TrimSpace, Cut, ParseInt, NoLengths;
    var end := blank + "\n" + body;
    var after := Joined(hs) + end;
    assert Joined(blanks) + line + "\n" + Joined(hs) + blank + "\n" + body == Joined(blanks) + (line + "\n" + after);
    LengthIsNotBlank(line);
    BlanksArePassed(blanks, line + "\n" + after, LIMIT);
    LengthMeans(line);
    LengthRead(line);
    if |Joined(blanks)| <= LIMIT {
      HeadIsRead(line, after, LIMIT - |Joined(blanks)|);
      var left := LIMIT - |Joined(blanks)| - |line| - 1;
      if left >= 0 {
        HeadersArePassed(hs, end, left);
        if |Joined(hs)| <= left { HeadersEnd(blank, body, left - |Joined(hs)|); }
      }
    }
  }

  lemma LengthIsNotBlank(line: string)
    requires LengthLine(line)
    ensures !Blank(line)
  {
    assert !IsSpace(line[0]);
  }

  /** Blank lines alone end the stream; a last line without its line feed is refused. */
  lemma BlankStreamEnds(blanks: seq<string>, tail: string)
    requires Blanks(blanks) && RawLine(tail)
    ensures Read(Joined(blanks) + tail) == if tail == "" && |Joined(blanks)| <= LIMIT then Ended else Broken
  {
    hide FirstLine, Framed, IsLength, Joined, Blank;
    BlanksArePassed(blanks, tail, LIMIT);
    if |Joined(blanks)| <= LIMIT { TailIsBad(tail, LIMIT - |Joined(blanks)|); }
  }

  /** A length whose headers never end is refused, wherever the stream breaks off. */
  lemma OpenHeadersAreRefused(blanks: seq<string>, line: string, hs: seq<string>, tail: string)
    requires Blanks(blanks) && RawLine(line) && LengthLine(line) && Headings(hs) && RawLine(tail)
    ensures Read(Joined(blanks) + line + "\n" + Joined(hs) + tail) == Broken
  {
    hide FirstLine, Headers, IsLength, Joined, TrimLineEnd, Blank, LengthLine, TrimSpace, Cut, ParseInt, NoLengths;
    var after := Joined(hs) + tail;
    assert Joined(blanks) + line + "\n" + Joined(hs) + tail == Joined(blanks) + (line + "\n" + after);
    LengthIsNotBlank(line);
    BlanksArePassed(blanks, line + "\n" + after, LIMIT);
    LengthMeans(line);
    if |Joined(blanks)| <= LIMIT {
      HeadIsRead(line, after, LIMIT - |Joined(blanks)|);
      var left := LIMIT - |Joined(blanks)| - |line| - 1;
      if left >= 0 {
        HeadersArePassed(hs, tail, left);
        if |Joined(hs)| <= left { TailIsBad(tail, left - |Joined(hs)|); }
      }
    }
  }

  // ------------------------------------------------------- every stream has a shape

  ghost predicate PlainStream(s: string) {
    exists blanks: seq<string>, line: string, rest: string ::
      Blanks(blanks) && RawLine(line) && !Blank(line) && !LengthLine(line)
      && s == Joined(blanks) + line + "\n" + rest
  }

  ghost predicate FramedStream(s: string) {
    exists blanks: seq<string>, line: string, hs: seq<string>, blank: string, body: string ::
      Blanks(blanks) && RawLine(line) && LengthLine(line) && Headings(hs) && RawLine(blank) && Blank(blank)
      && s == Joined(blanks) + line + "\n" + Joined(hs) + blank + "\n" + body
  }

  ghost predicate BlankStream(s: string) {
    exists blanks: seq<string>, tail: string :: Blanks(blanks) && RawLine(tail) && s == Joined(blanks) + tail
  }

  ghost predicate OpenStream(s: string) {
    exists blanks: seq<string>, line: string, hs: seq<string>, tail: string ::
      Blanks(blanks) && RawLine(line) && LengthLine(line) && Headings(hs) && RawLine(tail)
      && s == Joined(blanks) + line + "\n" + Joined(hs) + tail
  }

  /** The lines of s while they are blank, and what comes then. */
  lemma {:induction false} SkipLines(s: string, blank: bool) returns (ls: seq<string>, line: string, rest: string)
    ensures RawLine(line) && if blank then Blanks(ls) else Headings(ls)
    ensures s == Joined(ls) + line || (s == Joined(ls) + line + "\n" + rest && Blank(line) != blank)
    decreases |s|
  {
    var n := LineBreak(s);
    line := s[..n];
    assert RawLine(line);
    if n == |s| {
      ls, rest := [], "";
      assert s == Joined([]) + line;
    } else {
      rest := s[n + 1..];
      assert s == line + "\n" + rest;
      if Blank(line) == blank {
        var first := line;
        var tail: seq<string>;
        tail, line, rest := SkipLines(rest, blank);
        ls := [first] + tail;
        assert Joined(ls) == first + "\n" + Joined(tail);
        assert s == first + "\n" + (Joined(tail) + line) || s == first + "\n" + (Joined(tail) + line + "\n" + rest);
      } else {
        ls := [];
        assert s == Joined([]) + line + "\n" + rest;
      }
    }
  }

  /** Every stream is one of the four the lemmas above decide. */
  lemma EveryStreamHasAShape(s: string)
    ensures PlainStream(s) || FramedStream(s) || BlankStream(s) || OpenStream(s)
  {
    hide Blank, LengthLine, Joined, RawLine;
    var blanks, line, rest := SkipLines(s, true);
    if s == Joined(blanks) + line {
      assert BlankStream(s);
    } else if LengthLine(line) {
      var hs, next, body := SkipLines(rest, false);
      assert s == Joined(blanks) + line + "\n" + (Joined(hs) + next)
             || s == Joined(blanks) + line + "\n" + (Joined(hs) + next + "\n" + body);
      if rest == Joined(hs) + next {
        assert s == Joined(blanks) + line + "\n" + Joined(hs) + next;
        assert OpenStream(s);
      } else {
        assert s == Joined(blanks) + line + "\n" + Joined(hs) + next + "\n" + body;
        assert FramedStream(s);
      }
    } else {
      assert PlainStream(s);
    }
  }
}
