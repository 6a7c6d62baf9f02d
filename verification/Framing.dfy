/** orm/mcp/jsonrpc.go: the reader of framed messages undoes the writer, and an
    interrupted frame is never taken for the end of the stream. Characters are bytes. */
module Framing {
  import opened Text

  const MAX_MESSAGE_BYTES: nat := 0x10_0000

  // -------------------------------------------------------------------------- lines

  /** The first line feed, or the length when there is none. */
  function LineBreak(s: string): (i: nat)
    ensures i <= |s| && (i < |s| ==> s[i] == '\n') && forall k :: 0 <= k < i ==> s[k] != '\n'
  {
    if s == "" || s[0] == '\n' then 0 else 1 + LineBreak(s[1..])
  }

  /** strings.TrimRight(s, "\r\n"). */
  function TrimLineEnd(s: string): (r: string)
    ensures |r| <= |s|
  {
    if s != "" && (s[|s| - 1] == '\r' || s[|s| - 1] == '\n') then TrimLineEnd(s[..|s| - 1]) else s
  }

  datatype Line = Line(text: string, rest: string, budget: nat) | NoLine | BadLine

  function NextLine(rest: string, budget: nat): (r: Line)
    ensures r.Line? ==> |r.rest| < |rest| && |r.text| <= budget
  {
    var n := LineBreak(rest) + 1;
    if n > |rest| then if rest == "" then NoLine else BadLine
    else if n > budget then BadLine
    else Line(TrimLineEnd(rest[..n]), rest[n..], budget - n)
  }

  function FirstLine(rest: string, budget: nat): (r: Line)
    ensures r.Line? ==> |r.rest| < |rest| && |r.text| <= budget
    decreases |rest|
  {
    var l := NextLine(rest, budget);
    if l.Line? && TrimSpace(l.text) == "" then FirstLine(l.rest, l.budget) else l
  }

  predicate IsLength(line: string) { "content-length:" <= ToLower(line) }

  /** The headers up to the blank line, or nothing when they are refused. */
  function Headers(rest: string, budget: nat): (r: Option<string>)
    ensures r.Some? ==> |r.value| < |rest|
    decreases |rest|
  {
    var l := NextLine(rest, budget);
    if !l.Line? then None
    else if TrimSpace(l.text) == "" then Some(l.rest)
    else if IsLength(l.text) then None
    else Headers(l.rest, l.budget)
  }

  // ----------------------------------------------------------------------- messages

  datatype Outcome = Message(payload: string, rest: string) | Ended | Broken

  function Framed(line: string, rest: string, budget: nat): (r: Outcome)
    ensures r.Message? ==> |r.rest| < |rest|
  {
    var length := ParseInt(TrimSpace(Cut(line, ':').1), 64);
    if length.None? || length.value < 0 || length.value > MAX_MESSAGE_BYTES then Broken
    else
      var body := Headers(rest, budget);
      if body.None? || |body.value| < length.value then Broken
      else Message(body.value[..length.value], body.value[length.value..])
  }

  function Read(stream: string): (r: Outcome)
    ensures r.Message? ==> |r.rest| < |stream|
  {
    var first := FirstLine(stream, MAX_MESSAGE_BYTES);
    if first.NoLine? then Ended
    else if first.BadLine? then Broken
    else if !IsLength(first.text) then Message(first.text, first.rest)
    else Framed(first.text, first.rest, first.budget)
  }

  datatype Slice = Found | Full | AtEnd

  /** A buffered stream; size is the reader's buffer. */
  class Connection {
    var rest: string
    const size: nat

    constructor (stream: string, size: nat)
      requires size >= 16
      ensures rest == stream && this.size == size
    {
      rest, this.size := stream, size;
    }

    /** bufio.Reader.ReadSlice('\n'). */
    method ReadSlice() returns (part: string, status: Slice)
      requires size >= 16
      modifies this
      ensures part + rest == old(rest)
      ensures status == Found ==> part != "" && LineBreak(old(rest)) == |part| - 1
      ensures status == Full ==> |part| == size && LineBreak(old(rest)) >= |part|
      ensures status == AtEnd ==> rest == "" && LineBreak(old(rest)) == |part|
    {
      var i := 0;
      while i < |rest| && i < size && rest[i] != '\n'
        invariant i <= |rest| && i <= size && forall k :: 0 <= k < i ==> rest[k] != '\n'
      {
        i := i + 1;
      }
      var n := i;
      if i < |rest| && i < size {
        n, status := i + 1, Found;
      } else {
        status := if i == size then Full else AtEnd;
      }
      part, rest := rest[..n], rest[n..];
    }

    /** The readLine closure, with the budget it shares passed along. */
    method ReadLine(budget: nat) returns (line: Line)
      requires size >= 16
      modifies this
      ensures line.Line? <==> NextLine(old(rest), budget).Line?
      ensures line.NoLine? <==> NextLine(old(rest), budget).NoLine?
      ensures line.Line? ==> line == NextLine(old(rest), budget) && rest == line.rest
    {
      hide LineBreak, TrimLineEnd;
      ghost var whole := rest;
      var b, left := "", budget;
      while true
        invariant b + rest == whole && LineBreak(whole) >= |b| && left == budget - |b|
        decreases |rest|
      {
        ghost var before := rest;
        LineBreakAfter(b, before);
        var part, status := ReadSlice();
        if |part| > left { return BadLine; }
        b, left := b + part, left - |part|;
        assert b + rest == whole;
        if status == AtEnd { return if b == "" then NoLine else BadLine; }
        if status == Found {
          assert whole[..|b|] == b && whole[|b|..] == rest;
          return Line(TrimLineEnd(b), rest, left);
        }
      }
    }

    /** readMessage. */
    method ReadMessage() returns (r: Outcome)
      requires size >= 16
      modifies this
      ensures r == Read(old(rest)) && (r.Message? ==> rest == r.rest)
    {
      hide NextLine, TrimSpace, ToLower, IsLength;
      var line := ReadLine(MAX_MESSAGE_BYTES);
      ghost var stream, left := old(rest), MAX_MESSAGE_BYTES;
      while line.Line? && TrimSpace(line.text) == ""
        invariant line.Line? ==> line == NextLine(stream, left) && rest == line.rest
        invariant line.NoLine? <==> NextLine(stream, left).NoLine?
        invariant line.Line? <==> NextLine(stream, left).Line?
        invariant FirstLine(old(rest), MAX_MESSAGE_BYTES) == FirstLine(stream, left)
        decreases |stream|
      {
        stream, left := line.rest, line.budget;
        line := ReadLine(line.budget);
      }
      if line.NoLine? { return Ended; }
      if line.BadLine? { return Broken; }
      if !IsLength(line.text) { return Message(line.text, rest); }
      var length := ParseInt(TrimSpace(Cut(line.text, ':').1), 64);
      if length.None? || length.value < 0 || length.value > MAX_MESSAGE_BYTES { return Broken; }
      ghost var first := line;
      stream, left := first.rest, first.budget;
      line := ReadLine(line.budget);
      while line.Line? && TrimSpace(line.text) != ""
        invariant line.Line? ==> line == NextLine(stream, left) && rest == line.rest
        invariant line.Line? <==> NextLine(stream, left).Line?
        invariant Headers(first.rest, first.budget) == Headers(stream, left)
        decreases |stream|
      {
        if IsLength(line.text) { return Broken; }
        stream, left := line.rest, line.budget;
        line := ReadLine(line.budget);
      }
      if !line.Line? || |rest| < length.value { return Broken; }
      var payload := rest[..length.value];
      rest := rest[length.value..];
      return Message(payload, rest);
    }
  }

  lemma LineBreakAfter(b: string, rest: string)
    requires LineBreak(b + rest) >= |b|
    ensures LineBreak(b + rest) == |b| + LineBreak(rest)
  {
    var whole := b + rest;
    assert forall k :: 0 <= k < |rest| ==> whole[|b| + k] == rest[k];
  }

  // ---------------------------------------------------------------------- the writer

  function Header(length: nat): string { "Content-Length: " + FormatNat(length) + "\r" }

  function Frame(payload: string): string { Header(|payload|) + "\n" + ("\r" + "\n" + payload) }

  /** writeFramedMessage: the buffer it fills. */
  method WriteFramed(payload: string) returns (b: string)
    ensures b == Frame(payload)
  {
    b := "Content-Length: " + FormatNat(|payload|) + "\r\n\r\n";
    b := b + payload;
    assert "\r\n\r\n" == "\r" + "\n" + "\r" + "\n";
  }

  lemma LineBreakIs(s: string, after: string)
    requires '\n' !in s
    ensures LineBreak(s + "\n" + after) == |s| && LineBreak(s) == |s|
  {
    var whole := s + "\n" + after;
    assert whole[|s|] == '\n';
    forall k | 0 <= k < |s| ensures whole[k] != '\n' { assert whole[k] == s[k] && s[k] in s; }
  }

  /** A line that fits the budget is read whole, without its line end. */
  lemma NextLineIs(s: string, after: string, budget: nat)
    requires '\n' !in s && |s| < budget
    ensures NextLine(s + "\n" + after, budget) == Line(TrimLineEnd(s), after, budget - |s| - 1)
  {
    hide TrimLineEnd, LineBreak;
    LineBreakIs(s, after);
    var whole := s + "\n" + after;
    assert LineBreak(whole) + 1 == |s| + 1 <= |whole|;
    assert whole[..|s| + 1] == s + "\n" && whole[|s| + 1..] == after;
    TrimsBreak(s);
  }

  lemma TrimsBreak(s: string)
    ensures TrimLineEnd(s + "\n") == TrimLineEnd(s)
  {
    assert (s + "\n")[..|s|] == s;
  }

  lemma PartialLine(s: string, budget: nat)
    requires '\n' !in s && s != ""
    ensures NextLine(s, budget) == BadLine
  {
    LineBreakIs(s, "");
  }

  lemma DigitsStay(digits: string)
    requires AllDigits(digits) && digits != ""
    ensures TrimLineEnd("Content-Length: " + digits + "\r") == "Content-Length: " + digits
    ensures TrimSpace(" " + digits) == digits
  {
    var line := "Content-Length: " + digits;
    assert (line + "\r")[..|line|] == line && line[|line| - 1] == digits[|digits| - 1];
    assert (" " + digits)[1..] == digits;
    assert TrimLeftSpace(" " + digits) == digits by { assert digits[0] == digits[0]; }
  }

  lemma LowerPrefix(a: string, b: string)
    ensures ToLower(a) <= ToLower(a + b)
  {
    assert forall i :: 0 <= i < |a| ==> (a + b)[i] == a[i];
  }

  lemma HeaderIsLength(digits: string)
    ensures IsLength("Content-Length: " + digits)
  {
    var name := "Content-Length:";
    assert ToLower(name) == "content-length:";
    LowerPrefix(name, " " + digits);
    assert name + (" " + digits) == "Content-Length: " + digits;
  }

  lemma HeaderSplits(digits: string)
    ensures Cut("Content-Length: " + digits, ':').1 == " " + digits
  {
    CutFound("Content-Length", ':', " " + digits);
    assert "Content-Length" + [':'] + (" " + digits) == "Content-Length: " + digits;
  }

  lemma HeaderFits(payload: string)
    requires |payload| <= MAX_MESSAGE_BYTES
    ensures |Header(|payload|)| + 10 < MAX_MESSAGE_BYTES && '\n' !in Header(|payload|)
  {
    assert Power10(7) == 10000000 by {
      assert Power10(1) == 10 && Power10(2) == 100 && Power10(3) == 1000 && Power10(4) == 10000;
    }
    DigitCount(|payload|, 7);
    var digits := FormatNat(|payload|);
    assert forall i :: 0 <= i < |digits| ==> IsDigit(digits[i]);
  }

  lemma HeaderLine(payload: string, after: string)
    requires |payload| <= MAX_MESSAGE_BYTES
    ensures |Header(|payload|)| + 10 < MAX_MESSAGE_BYTES
    ensures FirstLine(Header(|payload|) + "\n" + after, MAX_MESSAGE_BYTES)
            == Line("Content-Length: " + FormatNat(|payload|), after, MAX_MESSAGE_BYTES - |Header(|payload|)| - 1)
  {
    hide NextLine, TrimLineEnd, TrimSpace;
    var digits := FormatNat(|payload|);
    HeaderFits(payload);
    NextLineIs(Header(|payload|), after, MAX_MESSAGE_BYTES);
    DigitsStay(digits);
    NotBlank(digits);
  }

  lemma NotBlank(digits: string)
    ensures TrimSpace("Content-Length: " + digits) != ""
  {
    var s := "Content-Length: " + digits;
    assert TrimLeftSpace(s) == s;
    StartStays(s);
  }

  lemma {:induction false} StartStays(s: string)
    requires s != "" && !IsSpace(s[0])
    ensures TrimRightSpace(s) != ""
  {
    if IsSpace(s[|s| - 1]) { StartStays(s[..|s| - 1]); }
  }

  lemma FramedParses(payload: string, rest: string, budget: nat)
    requires |payload| <= MAX_MESSAGE_BYTES
    ensures Framed("Content-Length: " + FormatNat(|payload|), rest, budget)
            == var body := Headers(rest, budget);
               if body.None? || |body.value| < |payload| then Broken
               else Message(body.value[..|payload|], body.value[|payload|..])
  {
    hide Headers, Cut, TrimSpace, ParseInt, FormatNat, TrimLineEnd;
    var digits := FormatNat(|payload|);
    HeaderSplits(digits);
    DigitsStay(digits);
    ParseFormatInt(|payload|, 64);
    assert FormatInt(|payload|) == digits;
    assert ParseInt(digits, 64) == Some(|payload|);
  }

  lemma BlankHeader(after: string, budget: nat)
    requires budget >= 2
    ensures Headers("\r" + "\n" + after, budget) == Some(after)
  {
    hide NextLine;
    NextLineIs("\r", after, budget);
    assert TrimLineEnd("\r") == "" by { assert "\r"[..0] == ""; }
  }

  lemma ReadFirst(stream: string, first: Line)
    requires first.Line? && FirstLine(stream, MAX_MESSAGE_BYTES) == first && IsLength(first.text)
    ensures Read(stream) == Framed(first.text, first.rest, first.budget)
  {
    hide FirstLine, Framed, IsLength;
  }

  /** The header budget left once a frame's first line is read. */
  function HeaderBudget(payload: string): nat {
    if |Header(|payload|)| < MAX_MESSAGE_BYTES then MAX_MESSAGE_BYTES - |Header(|payload|)| - 1 else 0
  }

  lemma ReadHeader(payload: string, after: string)
    requires |payload| <= MAX_MESSAGE_BYTES
    ensures HeaderBudget(payload) >= 2
    ensures Read(Header(|payload|) + "\n" + after)
            == Framed("Content-Length: " + FormatNat(|payload|), after, HeaderBudget(payload))
  {
    hide FirstLine, Framed, IsLength, Header, FormatNat, Read;
    HeaderLine(payload, after);
    HeaderIsLength(FormatNat(|payload|));
    ReadFirst(Header(|payload|) + "\n" + after,
        Line("Content-Length: " + FormatNat(|payload|), after, HeaderBudget(payload)));
  }

  /** Reading what was written gives the payload and leaves what follows it. */
  lemma ReadUndoesWrite(payload: string, rest: string)
    requires |payload| <= MAX_MESSAGE_BYTES
    ensures Read(Frame(payload) + rest) == Message(payload, rest)
  {
    hide Read, Framed, Headers, Header;
    var after := "\r" + "\n" + payload + rest;
    assert Frame(payload) + rest == Header(|payload|) + "\n" + after;
    ReadHeader(payload, after);
    var budget := HeaderBudget(payload);
    FramedParses(payload, after, budget);
    assert after == "\r" + "\n" + (payload + rest);
    BlankHeader(payload + rest, budget);
    assert (payload + rest)[..|payload|] == payload && (payload + rest)[|payload|..] == rest;
  }

  // ------------------------------------------------------------------- whole streams

  /** Reading until the end: the payloads, and whether the end was a clean one. */
  function Drain(stream: string): (seq<string>, bool)
    decreases |stream|
  {
    match Read(stream)
    case Ended => ([], true)
    case Broken => ([], false)
    case Message(payload, rest) => var (more, clean) := Drain(rest); ([payload] + more, clean)
  }

  function Frames(payloads: seq<string>): string {
    if payloads == [] then "" else Frame(payloads[0]) + Frames(payloads[1..])
  }

  lemma NothingLeft()
    ensures Read("") == Ended
  {
  }

  lemma {:induction false} DrainAfterFrames(payloads: seq<string>, tail: string)
    requires forall i :: 0 <= i < |payloads| ==> |payloads[i]| <= MAX_MESSAGE_BYTES
    ensures Drain(Frames(payloads) + tail) == (payloads + Drain(tail).0, Drain(tail).1)
  {
    hide Read, Frame;
    if payloads == [] {
      assert Frames(payloads) + tail == tail;
      assert payloads + Drain(tail).0 == Drain(tail).0;
    } else {
      var rest := Frames(payloads[1..]) + tail;
      assert Frames(payloads) + tail == Frame(payloads[0]) + rest;
      ReadUndoesWrite(payloads[0], rest);
      DrainAfterFrames(payloads[1..], tail);
      assert payloads + Drain(tail).0 == [payloads[0]] + (payloads[1..] + Drain(tail).0);
    }
  }

  /** Any list of payloads is read back in order, and then the stream ends cleanly. */
  lemma FramingRoundTrip(payloads: seq<string>)
    requires forall i :: 0 <= i < |payloads| ==> |payloads[i]| <= MAX_MESSAGE_BYTES
    ensures Drain(Frames(payloads)) == (payloads, true)
  {
    hide Read;
    DrainAfterFrames(payloads, "");
    NothingLeft();
    assert Frames(payloads) + "" == Frames(payloads);
    assert payloads + [] == payloads;
  }

  /** A frame cut short anywhere is refused; it is no message and no clean end. */
  lemma CutFrameIsRefused(payload: string, k: nat)
    requires |payload| <= MAX_MESSAGE_BYTES && 0 < k < |Frame(payload)|
    ensures Read(Frame(payload)[..k]) == Broken
  {
    hide Read, Framed, Header;
    var header := Header(|payload|);
    var cut := Frame(payload)[..k];
    HeaderFits(payload);
    if k <= |header| {
      assert cut == header[..k];
      NoHeader(cut);
    } else {
      var after := ("\r" + "\n" + payload)[..k - |header| - 1];
      assert cut == header + "\n" + after;
      ReadHeader(payload, after);
      var budget := HeaderBudget(payload);
      FramedParses(payload, after, budget);
      CutBody(payload, after, k - |header| - 1, budget);
    }
  }

  lemma NoHeader(cut: string)
    requires cut != "" && '\n' !in cut
    ensures Read(cut) == Broken
  {
    PartialLine(cut, MAX_MESSAGE_BYTES);
  }

  lemma CutBody(payload: string, after: string, n: nat, budget: nat)
    requires budget >= 2 && n < |payload| + 2 && after == ("\r" + "\n" + payload)[..n]
    ensures Headers(after, budget).None? || |Headers(after, budget).value| < |payload|
  {
    hide NextLine;
    if n == 0 {
      EmptyRest(budget);
    } else if n == 1 {
      assert after == "\r";
      PartialLine(after, budget);
    } else {
      assert after == "\r" + "\n" + payload[..n - 2];
      BlankHeader(payload[..n - 2], budget);
    }
  }

  lemma EmptyRest(budget: nat)
    ensures Headers("", budget) == None
  {
  }

  /** So a stream that breaks off inside a frame yields the whole messages before it
      and reports the damage. */
  lemma DamageIsReported(payloads: seq<string>, payload: string, k: nat)
    requires forall i :: 0 <= i < |payloads| ==> |payloads[i]| <= MAX_MESSAGE_BYTES
    requires |payload| <= MAX_MESSAGE_BYTES && 0 < k < |Frame(payload)|
    ensures Drain(Frames(payloads) + Frame(payload)[..k]) == (payloads, false)
  {
    hide Read, Frame;
    CutFrameIsRefused(payload, k);
    assert payloads + [] == payloads;
    DrainAfterFrames(payloads, Frame(payload)[..k]);
  }

  lemma {:induction false} FirstLineCharges(rest: string, budget: nat)
    ensures var l := FirstLine(rest, budget); l.Line? ==> |rest| - |l.rest| == budget - l.budget
    decreases |rest|
  {
    hide TrimSpace, TrimLineEnd;
    var l := NextLine(rest, budget);
    if l.Line? && TrimSpace(l.text) == "" { FirstLineCharges(l.rest, l.budget); }
  }

  lemma {:induction false} HeadersCharge(rest: string, budget: nat)
    ensures Headers(rest, budget).Some? ==> |rest| - |Headers(rest, budget).value| <= budget
    decreases |rest|
  {
    hide TrimSpace, TrimLineEnd, IsLength;
    var l := NextLine(rest, budget);
    if l.Line? && TrimSpace(l.text) != "" && !IsLength(l.text) { HeadersCharge(l.rest, l.budget); }
  }

  /** Whatever the stream holds, no message is larger than the limit, and all that is
      read besides its payload (blank lines, the line or the headers) is within one
      budget of the same size. */
  lemma MessagesAreBounded(stream: string)
    ensures var r := Read(stream);
            r.Message? ==> |r.payload| <= MAX_MESSAGE_BYTES && |stream| - |r.rest| <= MAX_MESSAGE_BYTES + |r.payload|
  {
    hide FirstLine, Headers, IsLength, ParseInt, TrimSpace;
    var first := FirstLine(stream, MAX_MESSAGE_BYTES);
    FirstLineCharges(stream, MAX_MESSAGE_BYTES);
    if first.Line? { HeadersCharge(first.rest, first.budget); }
  }
}
