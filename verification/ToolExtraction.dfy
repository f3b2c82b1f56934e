/**
 * ExtractToolCalls: a scanner for fenced tool_call blocks in free text, and the
 * printer it undoes. JSON decoding is a function parameter; a block that does not
 * decode, or decodes without a name, is skipped.
 */
module ToolExtraction {
  import opened Wrappers
  import opened Strings

  datatype Call = Call(name: string, arguments: string)

  type Decoder = string -> Option<Call>

  /** The opening marker and the closing fence; the scanner's loop does not depend on their text. */
  datatype Marks = Marks(marker: string, fence: string)

  const MARKS := Marks("```tool_call", "```")

  const NEWLINE: string := ['\n']

  /** The calls one block contributes: none or one. */
  function CallsOf(body: string, decode: Decoder): seq<Call> {
    match decode(TrimSpace(body))
    case Some(call) => if call.name != "" then [call] else []
    case None => []
  }

  /** What the scanner does with the text of a block. */
  type Reader = string -> seq<Call>

  function ReaderOf(decode: Decoder): Reader {
    body => CallsOf(body, decode)
  }

  /** Where the scanner splits its text: end of the marker line, length of the body. */
  datatype Split = NoBlock | Block(bodyStart: nat, bodyLength: nat)

  ghost function FirstBlock(s: string, m: Marks): (r: Split)
    ensures r.Block? ==> r.bodyStart + r.bodyLength + |m.fence| <= |s| && r.bodyStart > 0
  {
    var start := Index(s, m.marker);
    if start == -1 then NoBlock
    else
      var line := Index(s[start..], NEWLINE);
      if line == -1 then NoBlock
      else
        var bodyStart := start + line + 1;
        var end := Index(s[bodyStart..], m.fence);
        if end == -1 then NoBlock else Block(bodyStart, end)
  }

  ghost function Extract(s: string, m: Marks, read: Reader): seq<Call>
    decreases |s|
  {
    match FirstBlock(s, m)
    case NoBlock => []
    case Block(from, n) => read(s[from..from + n]) + Extract(s[from + n + |m.fence|..], m, read)
  }

  /** What one turn of the loop preserves: calls found so far, followed by those still to be found. */
  ghost predicate Accounts(all: seq<Call>, calls: seq<Call>, remaining: string, m: Marks, read: Reader) {
    all == calls + Extract(remaining, m, read)
  }

  lemma {:induction false} TurnAccounts(all: seq<Call>, calls: seq<Call>, remaining: string, m: Marks, read: Reader)
    requires Accounts(all, calls, remaining, m, read)
    ensures match FirstBlock(remaining, m)
      case NoBlock => all == calls
      case Block(from, n) =>
        Accounts(all, calls + read(remaining[from..from + n]), remaining[from + n + |m.fence|..], m, read)
  {
  }

  /** The three searches of one turn of the loop; each may end it. */
  method NextBlock(remaining: string, m: Marks) returns (b: Split)
    ensures b == FirstBlock(remaining, m)
  {
    var start := FindIndex(remaining, m.marker);
    if start == -1 { return NoBlock; }
    var jsonStart := FindIndex(remaining[start..], NEWLINE);
    if jsonStart == -1 { return NoBlock; }
    jsonStart := jsonStart + start + 1;
    var end := FindIndex(remaining[jsonStart..], m.fence);
    if end == -1 { return NoBlock; }
    b := Block(jsonStart, end);
  }

  method Scan(content: string, m: Marks, read: Reader) returns (calls: seq<Call>)
    ensures calls == Extract(content, m, read)
  {
    ghost var all := Extract(content, m, read);
    calls := [];
    var remaining := content;
    assert Accounts(all, calls, remaining, m, read);
    while true
      invariant Accounts(all, calls, remaining, m, read)
      decreases |remaining|
    {
      TurnAccounts(all, calls, remaining, m, read);
      var b := NextBlock(remaining, m);
      if b.NoBlock? { break; }
      var end := b.bodyStart + b.bodyLength;
      calls := calls + read(remaining[b.bodyStart..end]);
      remaining := remaining[end + |m.fence|..];
    }
  }

  method ExtractToolCalls(content: string, decode: Decoder) returns (calls: seq<Call>)
    ensures calls == Extract(content, MARKS, ReaderOf(decode))
  {
    calls := Scan(content, MARKS, ReaderOf(decode));
  }

  // ---------------------------------------------------------------- the printer

  /** Free text, the rest of the marker line, and the text up to the closing fence. */
  datatype Segment = Segment(filler: string, info: string, body: string)

  function Render(segment: Segment, m: Marks): string {
    segment.filler + m.marker + (segment.info + NEWLINE + (segment.body + m.fence))
  }

  function RenderAll(segments: seq<Segment>, tail: string, m: Marks): string {
    if segments == [] then tail else Render(segments[0], m) + RenderAll(segments[1..], tail, m)
  }

  function CallsOfAll(segments: seq<Segment>, read: Reader): seq<Call> {
    if segments == [] then [] else read(segments[0].body) + CallsOfAll(segments[1..], read)
  }

  /** The scanner reads a segment as it was meant. */
  ghost predicate Readable(segment: Segment, m: Marks) {
    && !Contains(segment.filler, m.marker)
    && '\n' !in segment.info
    && Index(segment.body + m.fence, m.fence) == |segment.body|
  }

  /** What the proofs need of the two marks. */
  predicate Usable(m: Marks) {
    m.marker != "" && Unbordered(m.marker) && '\n' !in m.marker && m.fence != "" && '\n' !in m.fence
  }

  lemma MarksAreUsable()
    ensures Usable(MARKS)
  {
    MarkerIsUnbordered(MARKS.marker);
  }

  lemma MarkerIsUnbordered(p: string)
    requires p == ['`', '`', '`', 't', 'o', 'o', 'l', '_', 'c', 'a', 'l', 'l']
    ensures Unbordered(p)
  {
    forall d | 0 < d < |p| ensures p[d..] != p[..|p| - d] {
      if d < 3 {
        assert p[d..][3 - d] == p[3] && p[..|p| - d][3 - d] == p[3 - d];
      } else {
        assert p[d..][0] == p[d] && p[..|p| - d][0] == p[0];
      }
    }
  }

  lemma FenceAfterBody(body: string, fence: string, rest: string)
    requires Index(body + fence, fence) == |body|
    ensures Index(body + fence + rest, fence) == |body|
  {
    var s, t := body + fence + rest, body + fence;
    IndexSpec(t, fence);
    assert s[|body|..|body| + |fence|] == fence;
    forall k | 0 <= k < |body| ensures !OccursAt(s, fence, k) {
      assert !OccursAt(t, fence, k);
      assert s[k..k + |fence|] == t[k..k + |fence|];
    }
    IndexIs(s, fence, |body|);
  }

  /** A body that ends its last line and holds no fence is closed by the fence after it. */
  lemma LineBeforeFence(json: string, fence: string)
    requires !Contains(json, fence) && fence != "" && '\n' !in fence
    ensures Index(json + NEWLINE + fence, fence) == |json + NEWLINE|
  {
    var body := json + NEWLINE;
    var s := body + fence;
    assert s[|body|..|body| + |fence|] == fence;
    forall k | 0 <= k < |body| && k + |fence| <= |s| ensures !OccursAt(s, fence, k) {
      var here := s[k..k + |fence|];
      if k + |fence| <= |json| {
        assert here == json[k..k + |fence|];
        assert !OccursAt(json, fence, k);
      } else {
        assert here[|json| - k] == '\n';
        assert '\n' in here;
      }
    }
    IndexIs(s, fence, |body|);
  }

  lemma RenderedPieces(segment: Segment, m: Marks, rest: string)
    ensures var s := Render(segment, m) + rest;
      var line := m.marker + segment.info;
      var from := |segment.filler| + |line| + 1;
      && s == segment.filler + m.marker + (segment.info + NEWLINE + (segment.body + m.fence) + rest)
      && s[|segment.filler|..] == line + NEWLINE + (segment.body + m.fence + rest)
      && s[from..] == segment.body + m.fence + rest
      && s[from..from + |segment.body|] == segment.body
      && s[from + |segment.body| + |m.fence|..] == rest
  {
  }

  lemma FirstBlockOfRender(segment: Segment, m: Marks, rest: string)
    requires Readable(segment, m) && Usable(m)
    ensures FirstBlock(Render(segment, m) + rest, m)
            == Block(|segment.filler| + |m.marker| + |segment.info| + 1, |segment.body|)
  {
    RenderedPieces(segment, m, rest);
    MarkerAfterFiller(segment.filler, m.marker, segment.info + NEWLINE + (segment.body + m.fence) + rest);
    CharAfterFiller(m.marker + segment.info, '\n', segment.body + m.fence + rest);
    FenceAfterBody(segment.body, m.fence, rest);
  }

  lemma {:induction false} ExtractStep(s: string, m: Marks, read: Reader, from: nat, n: nat, body: string, rest: string)
    requires FirstBlock(s, m) == Block(from, n)
    requires s[from..from + n] == body && s[from + n + |m.fence|..] == rest
    ensures Extract(s, m, read) == read(body) + Extract(rest, m, read)
  {
  }

  lemma {:induction false} ExtractFirst(s: string, segment: Segment, m: Marks, rest: string, read: Reader)
    requires Readable(segment, m) && Usable(m) && s == Render(segment, m) + rest
    ensures Extract(s, m, read) == read(segment.body) + Extract(rest, m, read)
  {
    var from := |segment.filler| + |m.marker| + |segment.info| + 1;
    FirstBlockOfRender(segment, m, rest);
    RenderedPieces(segment, m, rest);
    ExtractStep(s, m, read, from, |segment.body|, segment.body, rest);
  }

  /** Scanning rendered segments returns the calls of their bodies, in order. */
  lemma {:induction false} ExtractUndoesRender(segments: seq<Segment>, tail: string, m: Marks, read: Reader)
    requires Usable(m)
    requires forall k :: 0 <= k < |segments| ==> Readable(segments[k], m)
    requires FirstBlock(tail, m) == NoBlock
    ensures Extract(RenderAll(segments, tail, m), m, read) == CallsOfAll(segments, read)
  {
    if segments != [] {
      ExtractFirst(RenderAll(segments, tail, m), segments[0], m, RenderAll(segments[1..], tail, m), read);
      ExtractUndoesRender(segments[1..], tail, m, read);
    }
  }

  /**
   * And every text is of that form: readable segments, then a tail with no complete
   * block. Together with `ExtractUndoesRender` this fixes the scanner on all inputs.
   */
  lemma {:induction false} EveryTextIsRendered(s: string, m: Marks, read: Reader)
    returns (segments: seq<Segment>, tail: string)
    requires Usable(m)
    ensures forall k :: 0 <= k < |segments| ==> Readable(segments[k], m)
    ensures FirstBlock(tail, m) == NoBlock
    ensures s == RenderAll(segments, tail, m)
    ensures Extract(s, m, read) == CallsOfAll(segments, read)
    decreases |s|
  {
    match FirstBlock(s, m)
    case NoBlock =>
      segments, tail := [], s;
    case Block(from, n) =>
      var first := SplitFirst(s, m);
      var more;
      more, tail := EveryTextIsRendered(s[from + n + |m.fence|..], m, read);
      segments := [first] + more;
      assert segments[1..] == more;
      ExtractUndoesRender(segments, tail, m, read);
  }

  lemma SplitFirst(s: string, m: Marks) returns (segment: Segment)
    requires FirstBlock(s, m).Block? && Usable(m)
    ensures var b := FirstBlock(s, m);
      Readable(segment, m) && s == Render(segment, m) + s[b.bodyStart + b.bodyLength + |m.fence|..]
  {
    var start := Index(s, m.marker);
    var line := Index(s[start..], NEWLINE);
    IndexSpec(s, m.marker);
    IndexSpec(s[start..], NEWLINE);
    IndexSpec(s[start + line + 1..], m.fence);
    segment := SplitAt(s, m, start, line, FirstBlock(s, m).bodyLength);
  }

  function SegmentAt(s: string, m: Marks, start: nat, line: nat, n: nat): Segment
    requires |m.marker| <= line && start + line + 1 + n <= |s|
  {
    var from := start + line + 1;
    Segment(s[..start], s[start + |m.marker|..start + line], s[from..from + n])
  }

  lemma SplitAt(s: string, m: Marks, start: nat, line: nat, n: nat) returns (segment: Segment)
    requires Usable(m)
    requires OccursAt(s, m.marker, start) && NoneBefore(s, m.marker, start)
    requires OccursAt(s[start..], NEWLINE, line) && NoneBefore(s[start..], NEWLINE, line)
    requires start + line + 1 + n + |m.fence| <= |s|
    requires OccursAt(s[start + line + 1..], m.fence, n) && NoneBefore(s[start + line + 1..], m.fence, n)
    ensures Readable(segment, m) && s == Render(segment, m) + s[start + line + 1 + n + |m.fence|..]
  {
    LineAfterMarker(s, start, line, m);
    OccursInSuffix(s, m.fence, start + line + 1, n);
    segment := SegmentAt(s, m, start, line, n);
    SegmentIsReadable(s, m, start, line, n);
    Reassemble(s, m, start, line, n);
  }

  lemma SegmentIsReadable(s: string, m: Marks, start: nat, line: nat, n: nat)
    requires Usable(m) && |m.marker| <= line && start + line + 1 + n + |m.fence| <= |s|
    requires NoneBefore(s, m.marker, start)
    requires '\n' !in s[start + |m.marker|..start + line]
    requires OccursAt(s[start + line + 1..], m.fence, n) && NoneBefore(s[start + line + 1..], m.fence, n)
    ensures Readable(SegmentAt(s, m, start, line, n), m)
  {
    FillerIsClean(s, m.marker, start);
    BodyIsClosed(s, m.fence, start + line + 1, n);
  }

  lemma OccursInSuffix(s: string, p: string, from: nat, n: nat)
    requires from <= |s| && OccursAt(s[from..], p, n)
    ensures from + n + |p| <= |s| && s[from + n..from + n + |p|] == p
  {
    assert s[from..][n..n + |p|] == s[from + n..from + n + |p|];
  }

  lemma Reassemble(s: string, m: Marks, start: nat, line: nat, n: nat)
    requires |m.marker| <= line && start + line + 1 + n + |m.fence| <= |s|
    requires s[start..start + |m.marker|] == m.marker
    requires s[start + line..start + line + 1] == NEWLINE
    requires s[start + line + 1 + n..start + line + 1 + n + |m.fence|] == m.fence
    ensures s == Render(SegmentAt(s, m, start, line, n), m) + s[start + line + 1 + n + |m.fence|..]
  {
  }

  /** The first newline comes after the marker, and nothing on the marker's line is one. */
  lemma LineAfterMarker(s: string, start: nat, line: nat, m: Marks)
    requires '\n' !in m.marker && OccursAt(s, m.marker, start)
    requires OccursAt(s[start..], NEWLINE, line) && NoneBefore(s[start..], NEWLINE, line)
    ensures line >= |m.marker| && s[start + line..start + line + 1] == NEWLINE
    ensures '\n' !in s[start + |m.marker|..start + line]
  {
    var t := s[start..];
    assert t[line..line + 1] == s[start + line..start + line + 1];
    assert s[start + line] == NEWLINE[0];
    assert forall j :: 0 <= j < |m.marker| ==> m.marker[j] == s[start..start + |m.marker|][j] == s[start + j];
    assert line >= |m.marker|;
    forall k | start + |m.marker| <= k < start + line ensures s[k] != '\n' {
      assert !OccursAt(t, NEWLINE, k - start);
      assert t[k - start..k - start + 1] == [s[k]];
    }
  }

  lemma FillerIsClean(s: string, p: string, start: nat)
    requires start <= |s| && NoneBefore(s, p, start) && p != ""
    ensures !Contains(s[..start], p)
  {
    forall k ensures !OccursAt(s[..start], p, k) {
      if OccursAt(s[..start], p, k) {
        assert s[..start][k..k + |p|] == s[k..k + |p|];
        assert OccursAt(s, p, k);
      }
    }
  }

  lemma BodyIsClosed(s: string, fence: string, from: nat, n: nat)
    requires from + n + |fence| <= |s|
    requires OccursAt(s[from..], fence, n) && NoneBefore(s[from..], fence, n)
    ensures Index(s[from..from + n] + fence, fence) == n
    ensures s[from + n..from + n + |fence|] == fence
  {
    var t := s[from..from + n] + fence;
    assert s[from..][n..n + |fence|] == s[from + n..from + n + |fence|];
    assert s[from..][..n + |fence|] == t;
    assert t[n..n + |fence|] == fence;
    forall k | 0 <= k < n ensures !OccursAt(t, fence, k) {
      assert !OccursAt(s[from..], fence, k);
      if k + |fence| <= |t| {
        assert t[k..k + |fence|] == s[from..][k..k + |fence|];
      }
    }
    IndexIs(t, fence, n);
  }

  // ---------------------------------------------------------------- blocks that hold no call

  lemma {:induction false} CallsOfMore(front: seq<Segment>, back: seq<Segment>, read: Reader)
    ensures CallsOfAll(front + back, read) == CallsOfAll(front, read) + CallsOfAll(back, read)
    decreases |front|
  {
    if front == [] {
      assert front + back == back;
    } else {
      assert (front + back)[0] == front[0] && (front + back)[1..] == front[1..] + back;
      CallsOfMore(front[1..], back, read);
    }
  }

  /** The block does not decode, or decodes to a call without a name. */
  predicate HoldsNoCall(segment: Segment, decode: Decoder) {
    decode(TrimSpace(segment.body)).None? || decode(TrimSpace(segment.body)).value.name == ""
  }

  function CallIn(segment: Segment, decode: Decoder): seq<Call> {
    if HoldsNoCall(segment, decode) then [] else [decode(TrimSpace(segment.body)).value]
  }

  lemma CallsAround(before: seq<Segment>, segment: Segment, after: seq<Segment>, decode: Decoder)
    ensures CallsOfAll(before + [segment] + after, ReaderOf(decode))
            == CallsOfAll(before, ReaderOf(decode)) + CallIn(segment, decode) + CallsOfAll(after, ReaderOf(decode))
  {
    var read := ReaderOf(decode);
    CallsOfMore(before + [segment], after, read);
    CallsOfMore(before, [segment], read);
    assert [segment][1..] == [];
    assert CallsOfAll([segment], read) == read(segment.body) + [];
  }

  ghost predicate AreReadable(segments: seq<Segment>, m: Marks) {
    forall k :: 0 <= k < |segments| ==> Readable(segments[k], m)
  }

  /** Such a block contributes nothing and disturbs neither what precedes nor what follows it; any other adds its call. */
  lemma EachBlockStandsAlone(before: seq<Segment>, segment: Segment, after: seq<Segment>, tail: string, m: Marks, decode: Decoder)
    requires Usable(m) && FirstBlock(tail, m) == NoBlock
    requires AreReadable(before, m) && Readable(segment, m) && AreReadable(after, m)
    ensures Extract(RenderAll(before + [segment] + after, tail, m), m, ReaderOf(decode))
            == Extract(RenderAll(before, tail, m), m, ReaderOf(decode))
               + (if HoldsNoCall(segment, decode) then [] else [decode(TrimSpace(segment.body)).value])
               + Extract(RenderAll(after, tail, m), m, ReaderOf(decode))
  {
    var all := before + [segment] + after;
    assert AreReadable(all, m);
    ExtractUndoesRender(all, tail, m, ReaderOf(decode));
    ExtractUndoesRender(before, tail, m, ReaderOf(decode));
    ExtractUndoesRender(after, tail, m, ReaderOf(decode));
    CallsAround(before, segment, after, decode);
  }

  // ---------------------------------------------------------------- the round trip

  /** A call as the prompt asks models to write it, after some free text. */
  datatype Utterance = Utterance(filler: string, call: Call)

  function Fenced(u: Utterance, encode: Call -> string): string {
    u.filler + "```tool_call\n" + encode(u.call) + "\n```"
  }

  function FencedAll(us: seq<Utterance>, tail: string, encode: Call -> string): string {
    if us == [] then tail else Fenced(us[0], encode) + FencedAll(us[1..], tail, encode)
  }

  function SegmentOf(u: Utterance, encode: Call -> string): Segment {
    Segment(u.filler, "", encode(u.call) + NEWLINE)
  }

  lemma FencedIsRendered(u: Utterance, encode: Call -> string)
    ensures Fenced(u, encode) == Render(SegmentOf(u, encode), MARKS)
  {
    assert "```tool_call\n" == MARKS.marker + ("" + NEWLINE);
    assert "\n```" == NEWLINE + MARKS.fence;
  }

  /** Named, printable without a fence, and restored by the decoder. */
  ghost predicate Printable(call: Call, m: Marks, encode: Call -> string, decode: Decoder) {
    && call.name != ""
    && !Contains(encode(call), m.fence)
    && decode(TrimSpace(encode(call))) == Some(call)
  }

  lemma ExtractUtterance(u: Utterance, m: Marks, rest: string, encode: Call -> string, decode: Decoder)
    requires Usable(m) && Printable(u.call, m, encode, decode) && !Contains(u.filler, m.marker)
    ensures Extract(Render(SegmentOf(u, encode), m) + rest, m, ReaderOf(decode)) == [u.call] + Extract(rest, m, ReaderOf(decode))
  {
    LineBeforeFence(encode(u.call), m.fence);
    TrimAround(encode(u.call), '\n');
    ExtractFirst(Render(SegmentOf(u, encode), m) + rest, SegmentOf(u, encode), m, rest, ReaderOf(decode));
  }

  function CallsIn(us: seq<Utterance>): seq<Call> {
    if us == [] then [] else [us[0].call] + CallsIn(us[1..])
  }

  /**
   * Printed calls come back: any sequence of named calls, printed as fenced blocks
   * whose JSON holds no fence, between pieces of text free of the opening marker,
   * is returned exactly and in order.
   */
  lemma {:induction false} PrintedCallsComeBack(us: seq<Utterance>, tail: string, encode: Call -> string, decode: Decoder)
    requires forall k :: 0 <= k < |us| ==>
      Printable(us[k].call, MARKS, encode, decode) && !Contains(us[k].filler, MARKS.marker)
    requires !Contains(tail, MARKS.marker)
    ensures Extract(FencedAll(us, tail, encode), MARKS, ReaderOf(decode)) == CallsIn(us)
  {
    if us != [] {
      MarksAreUsable();
      FencedIsRendered(us[0], encode);
      ExtractUtterance(us[0], MARKS, FencedAll(us[1..], tail, encode), encode, decode);
      PrintedCallsComeBack(us[1..], tail, encode, decode);
    }
  }
}
