/**
 * The line drainer of the ConPTY shell (apps/desktop/native/SovereignNativeAgent.cs): typed text arrives in payloads
 * cut anywhere, and each completed line is echoed, then prompted for, queued to PowerShell, or ends the shell.
 */
module ShellInput {
  import opened CodeUnits
  import opened Sequences

  type Text = seq<CodeUnit>

  const CR: CodeUnit := 13
  const LF: CodeUnit := 10

  datatype Output = Line(text: Text) | Prompt

  /** What draining a buffer did: the lines it completed, the text it kept, and whether the shell goes on. */
  datatype Drained = Drained(keep: bool, handled: seq<Text>, rest: Text)

  predicate Terminator(unit: CodeUnit) { unit == CR || unit == LF }

  /** Char.IsWhiteSpace. */
  predicate WhiteSpace(unit: CodeUnit) {
    || 9 <= unit <= 13 || unit == 32 || unit == 0x85 || unit == 0xA0 || unit == 0x1680 || 0x2000 <= unit <= 0x200A
    || unit == 0x2028 || unit == 0x2029 || unit == 0x202F || unit == 0x205F || unit == 0x3000
  }

  function TrimStart(text: Text): Text {
    if text != [] && WhiteSpace(text[0]) then TrimStart(text[1..]) else text
  }

  function TrimEnd(text: Text): Text {
    if text != [] && WhiteSpace(text[|text| - 1]) then TrimEnd(text[..|text| - 1]) else text
  }

  function Trim(text: Text): Text { TrimEnd(TrimStart(text)) }

  predicate Blank(text: Text) { Trim(text) == [] }

  /** Trims to "exit" in any mix of ASCII upper and lower case. */
  predicate Exits(text: Text) {
    var word := Trim(text);
    && |word| == 4
    && (word[0] == 101 || word[0] == 69) && (word[1] == 120 || word[1] == 88)
    && (word[2] == 105 || word[2] == 73) && (word[3] == 116 || word[3] == 84)
  }

  /** The position of the first CR or LF, or the length of the text. */
  function FirstTerminator(text: Text): (t: nat)
    ensures t <= |text|
    ensures t < |text| ==> Terminator(text[t])
    ensures forall i :: 0 <= i < t ==> !Terminator(text[i])
  {
    if text == [] || Terminator(text[0]) then 0 else 1 + FirstTerminator(text[1..])
  }

  /** A CR and an LF behind it end one line together, when both are in the buffer. */
  function TerminatorLength(text: Text, t: nat): (n: nat)
    requires t < |text|
    ensures 1 <= n && t + n <= |text|
  {
    if text[t] == CR && t + 1 < |text| && text[t + 1] == LF then 2 else 1
  }

  function Drain(pending: Text): Drained
    decreases |pending|
  {
    var t := FirstTerminator(pending);
    if t == |pending| then Drained(true, [], pending)
    else
      var command := pending[..t];
      var rest := pending[t + TerminatorLength(pending, t)..];
      if Exits(command) then Drained(false, [command], rest)
      else
        var later := Drain(rest);
        Drained(later.keep, [command] + later.handled, later.rest)
  }

  function Commands(lines: seq<Text>): seq<Text> {
    if lines == [] then []
    else (if Blank(lines[0]) || Exits(lines[0]) then [] else [lines[0]]) + Commands(lines[1..])
  }

  function Outputs(lines: seq<Text>): seq<Output> {
    if lines == [] then []
    else (if Blank(lines[0]) then [Line(lines[0]), Prompt] else [Line(lines[0])]) + Outputs(lines[1..])
  }

  /** Feed payloads one by one until one of them ends the shell. */
  function Feed(pending: Text, payloads: seq<Text>): Drained
    decreases |payloads|
  {
    if payloads == [] then Drained(true, [], pending)
    else
      var first := Drain(pending + payloads[0]);
      if !first.keep then first
      else
        var later := Feed(first.rest, payloads[1..]);
        Drained(later.keep, first.handled + later.handled, later.rest)
  }

  // ----- the reference: one text, cut at every CR and every LF -----

  /** The pieces that end in a terminator. */
  function Segments(text: Text): seq<Text>
    decreases |text|
  {
    var t := FirstTerminator(text);
    if t == |text| then [] else [text[..t]] + Segments(text[t + 1..])
  }

  function Remainder(text: Text): Text
    decreases |text|
  {
    var t := FirstTerminator(text);
    if t == |text| then text else Remainder(text[t + 1..])
  }

  /** The segments up to and including the first that exits. */
  function UpToExit(segments: seq<Text>): seq<Text> {
    if segments == [] then []
    else if Exits(segments[0]) then [segments[0]]
    else [segments[0]] + UpToExit(segments[1..])
  }

  predicate AnyExits(segments: seq<Text>) { segments != [] && (Exits(segments[0]) || AnyExits(segments[1..])) }

  function Concat(payloads: seq<Text>): Text {
    if payloads == [] then [] else payloads[0] + Concat(payloads[1..])
  }

  /** Lines without the empty ones, which neither run nor exit. */
  function NonEmpty(lines: seq<Text>): seq<Text> {
    if lines == [] then [] else (if lines[0] == [] then [] else [lines[0]]) + NonEmpty(lines[1..])
  }

  // ----- cutting -----

  lemma FirstIn(text: Text, t: nat)
    requires t < |text| && Terminator(text[t]) && forall i :: 0 <= i < t ==> !Terminator(text[i])
    ensures FirstTerminator(text) == t
  {}

  /** A text whose first terminator is known by what stands around it. */
  lemma FirstSegment(text: Text, line: Text, end: CodeUnit, tail: Text)
    requires text == line + ([end] + tail) && Terminator(end)
    requires forall i :: 0 <= i < |line| ==> !Terminator(line[i])
    ensures FirstTerminator(text) == |line|
    ensures Segments(text) == [line] + Segments(tail) && Remainder(text) == Remainder(tail)
  {
    PartsAround(line, end, tail);
    FirstIn(text, |line|);
  }

  lemma {:induction false} SegmentsConcat(a: Text, b: Text)
    ensures Segments(a + b) == Segments(a) + Segments(Remainder(a) + b)
    ensures Remainder(a + b) == Remainder(Remainder(a) + b)
    decreases |a|
  {
    var t := FirstTerminator(a);
    if t < |a| {
      var line, tail := a[..t], a[t + 1..];
      CutAround(a, t);
      FirstSegment(a, line, a[t], tail);
      Shifted(line, a[t], tail, b);
      FirstSegment(a + b, line, a[t], tail + b);
      SegmentsConcat(tail, b);
      Associates([line], Segments(tail), Segments(Remainder(tail) + b));
    } else {
      assert Segments(a) == [] && Remainder(a) == a;
    }
  }

  lemma Shifted(line: Text, end: CodeUnit, tail: Text, more: Text)
    ensures line + ([end] + tail) + more == line + ([end] + (tail + more))
  {}

  lemma {:induction false} RemainderOpen(text: Text)
    ensures forall i :: 0 <= i < |Remainder(text)| ==> !Terminator(Remainder(text)[i])
    decreases |text|
  {
    var t := FirstTerminator(text);
    if t < |text| { RemainderOpen(text[t + 1..]); }
  }

  lemma {:induction false} NonEmptyConcat(a: seq<Text>, b: seq<Text>)
    ensures NonEmpty(a + b) == NonEmpty(a) + NonEmpty(b)
  {
    if a == [] {
      assert a + b == b;
    } else {
      assert (a + b)[1..] == a[1..] + b;
      NonEmptyConcat(a[1..], b);
    }
  }

  lemma {:induction false} CommandsNonEmpty(lines: seq<Text>)
    ensures Commands(lines) == Commands(NonEmpty(lines))
  {
    if lines != [] {
      CommandsNonEmpty(lines[1..]);
      var rest := NonEmpty(lines[1..]);
      if lines[0] == [] {
        assert Blank([]);
        assert NonEmpty(lines) == rest;
      } else {
        assert NonEmpty(lines) == [lines[0]] + rest && ([lines[0]] + rest)[1..] == rest;
      }
    }
  }

  lemma {:induction false} AnyExitsConcat(a: seq<Text>, b: seq<Text>)
    ensures AnyExits(a + b) <==> AnyExits(a) || AnyExits(b)
  {
    if a == [] {
      assert a + b == b;
    } else {
      assert (a + b)[1..] == a[1..] + b;
      AnyExitsConcat(a[1..], b);
    }
  }

  lemma {:induction false} UpToExitConcat(a: seq<Text>, b: seq<Text>)
    ensures UpToExit(a + b) == if AnyExits(a) then UpToExit(a) else a + UpToExit(b)
    ensures AnyExits(a + b) <==> AnyExits(a) || AnyExits(b)
  {
    AnyExitsConcat(a, b);
    if a == [] {
      assert a + b == b && a + UpToExit(b) == UpToExit(b);
    } else {
      var rest := a[1..];
      CutInFirst(a, b, 1);
      UpToExitConcat(rest, b);
      assert a == [a[0]] + rest;
      Associates([a[0]], rest, UpToExit(b));
    }
  }

  lemma OneSegment(segment: Text)
    ensures UpToExit([segment]) == [segment]
    ensures AnyExits([segment]) <==> Exits(segment)
  {
    assert [segment][1..] == [];
  }

  // ----- one buffer -----

  /** A buffer that opens with a CR-LF pair's LF has an empty first segment. */
  lemma LeadingLineFeed(text: Text)
    requires text != [] && text[0] == LF
    ensures Segments(text) == [[]] + Segments(text[1..]) && Remainder(text) == Remainder(text[1..])
  {
    FirstIn(text, 0);
    assert text[..0] == [];
  }

  /** The lines handled are, empty ones apart, the segments up to the first exit. */
  predicate Agrees(drained: Drained, segments: seq<Text>, remainder: Text) {
    && (drained.keep <==> !AnyExits(segments))
    && NonEmpty(drained.handled) == NonEmpty(UpToExit(segments))
    && (drained.keep ==> drained.rest == remainder)
  }

  lemma LineAgrees(command: Text, later: Drained, segments: seq<Text>, remainder: Text)
    requires !Exits(command) && Agrees(later, segments, remainder)
    ensures Agrees(Drained(later.keep, [command] + later.handled, later.rest), [command] + segments, remainder)
  {
    OneSegment(command);
    UpToExitConcat([command], segments);
    NonEmptyConcat([command], later.handled);
    NonEmptyConcat([command], UpToExit(segments));
  }

  lemma ExitAgrees(command: Text, rest: Text, segments: seq<Text>, remainder: Text)
    requires Exits(command)
    ensures Agrees(Drained(false, [command], rest), [command] + segments, remainder)
  {
    OneSegment(command);
    UpToExitConcat([command], segments);
  }

  lemma SkipLineFeed(tail: Text, drained: Drained)
    requires tail != [] && tail[0] == LF && Agrees(drained, Segments(tail[1..]), Remainder(tail[1..]))
    ensures Agrees(drained, Segments(tail), Remainder(tail))
  {
    LeadingLineFeed(tail);
    var rest := Segments(tail[1..]);
    UpToExitConcat([[]], rest);
    OneSegment([]);
    assert !Exits([]);
    NonEmptyConcat([[]], UpToExit(rest));
    assert NonEmpty([[]]) == [];
  }

  lemma {:induction false} DrainSegments(pending: Text)
    ensures Agrees(Drain(pending), Segments(pending), Remainder(pending))
    decreases |pending|
  {
    var t := FirstTerminator(pending);
    if t < |pending| {
      var command, n, tail := pending[..t], TerminatorLength(pending, t), pending[t + 1..];
      var rest := pending[t + n..];
      assert Segments(pending) == [command] + Segments(tail) && Remainder(pending) == Remainder(tail);
      if Exits(command) {
        ExitAgrees(command, rest, Segments(tail), Remainder(tail));
      } else {
        DrainSegments(rest);
        if n == 2 {
          DropTwice(pending, t + 1, 1);
          SkipLineFeed(tail, Drain(rest));
        }
        LineAgrees(command, Drain(rest), Segments(tail), Remainder(tail));
      }
    }
  }

  // ----- any split into payloads -----

  lemma {:induction false} FeedSegments(pending: Text, payloads: seq<Text>)
    requires Segments(pending) == [] && Remainder(pending) == pending
    ensures Feed(pending, payloads).keep <==> !AnyExits(Segments(pending + Concat(payloads)))
    ensures NonEmpty(Feed(pending, payloads).handled) == NonEmpty(UpToExit(Segments(pending + Concat(payloads))))
    ensures Feed(pending, payloads).keep ==> Feed(pending, payloads).rest == Remainder(pending + Concat(payloads))
    decreases |payloads|
  {
    if payloads == [] {
      assert pending + Concat(payloads) == pending;
    } else {
      var buffer, rest := pending + payloads[0], Concat(payloads[1..]);
      assert pending + Concat(payloads) == buffer + rest;
      SegmentsConcat(buffer, rest);
      DrainSegments(buffer);
      UpToExitConcat(Segments(buffer), Segments(Remainder(buffer) + rest));
      if Drain(buffer).keep {
        Open(buffer);
        FeedSegments(Remainder(buffer), payloads[1..]);
        var first, later := Drain(buffer), Feed(Remainder(buffer), payloads[1..]);
        NonEmptyConcat(first.handled, later.handled);
        NonEmptyConcat(Segments(buffer), UpToExit(Segments(Remainder(buffer) + rest)));
        NoExit(Segments(buffer));
      }
    }
  }

  lemma {:induction false} NoExit(segments: seq<Text>)
    requires !AnyExits(segments)
    ensures UpToExit(segments) == segments
  {
    UpToExitConcat(segments, []);
    assert segments + [] == segments && UpToExit([]) == [];
  }

  lemma Open(text: Text)
    ensures Segments(Remainder(text)) == [] && Remainder(Remainder(text)) == Remainder(text)
  {
    RemainderOpen(text);
    var t := FirstTerminator(Remainder(text));
    assert t == |Remainder(text)|;
  }

  /**
   * However typed text is cut into payloads, the commands queued to PowerShell are the non-blank segments of the whole
   * text, cut at every CR and every LF, before the first that trims to "exit"; the shell goes on exactly when there is
   * no such segment, and then keeps the text behind the last terminator.
   */
  lemma SplitImmaterial(payloads: seq<Text>)
    ensures Commands(Feed([], payloads).handled) == Commands(UpToExit(Segments(Concat(payloads))))
    ensures Feed([], payloads).keep <==> !AnyExits(Segments(Concat(payloads)))
    ensures Feed([], payloads).keep ==> Feed([], payloads).rest == Remainder(Concat(payloads))
  {
    assert [] + Concat(payloads) == Concat(payloads);
    FeedSegments([], payloads);
    CommandsNonEmpty(Feed([], payloads).handled);
    CommandsNonEmpty(UpToExit(Segments(Concat(payloads))));
  }

  // ----- prompts -----

  function Prompts(outputs: seq<Output>): nat {
    if outputs == [] then 0 else (if outputs[0].Prompt? then 1 else 0) + Prompts(outputs[1..])
  }

  /** The CR-LF pairs of a text. */
  function Pairs(text: Text): nat {
    if |text| < 2 then 0 else (if text[0] == CR && text[1] == LF then 1 else 0) + Pairs(text[1..])
  }

  predicate Meets(a: Text, b: Text) { a != [] && b != [] && a[|a| - 1] == CR && b[0] == LF }

  /** The CR-LF pairs that a boundary between two payloads cuts, after `before` has been typed. */
  function CutPairs(before: Text, payloads: seq<Text>): nat
    decreases |payloads|
  {
    if payloads == [] then 0
    else (if Meets(before, payloads[0]) then 1 else 0) + CutPairs(before + payloads[0], payloads[1..])
  }

  lemma {:induction false} PairsConcat(a: Text, b: Text)
    ensures Pairs(a + b) == Pairs(a) + Pairs(b) + if Meets(a, b) then 1 else 0
  {
    if a == [] {
      assert a + b == b;
    } else {
      assert (a + b)[1..] == a[1..] + b;
      PairsConcat(a[1..], b);
      if |a| == 1 { assert a[1..] + b == b; }
    }
  }

  lemma {:induction false} NoPairs(text: Text)
    requires forall i :: 0 <= i < |text| ==> !Terminator(text[i])
    ensures Pairs(text) == 0
  {
    if |text| >= 2 { NoPairs(text[1..]); }
  }

  lemma {:induction false} BlanksPrompt(lines: seq<Text>)
    ensures Prompts(Outputs(lines)) == |lines| - Shown(lines)
    ensures Shown(lines) == Shown(NonEmpty(lines))
  {
    if lines != [] {
      BlanksPrompt(lines[1..]);
      var rest := Outputs(lines[1..]);
      if Blank(lines[0]) {
        assert Outputs(lines) == [Line(lines[0]), Prompt] + rest;
        assert Outputs(lines)[1..] == [Prompt] + rest && ([Prompt] + rest)[1..] == rest;
      } else {
        assert Outputs(lines)[1..] == rest;
      }
      var later := NonEmpty(lines[1..]);
      if lines[0] == [] {
        assert Blank([]);
        assert NonEmpty(lines) == later;
      } else {
        assert NonEmpty(lines) == [lines[0]] + later && ([lines[0]] + later)[1..] == later;
      }
    }
  }

  /** How many lines are not blank. */
  function Shown(lines: seq<Text>): nat {
    if lines == [] then 0 else (if Blank(lines[0]) then 0 else 1) + Shown(lines[1..])
  }

  lemma PairsAt(pending: Text, t: nat)
    requires t < |pending| && t == FirstTerminator(pending)
    ensures Pairs(pending) == TerminatorLength(pending, t) - 1 + Pairs(pending[t + TerminatorLength(pending, t)..])
  {
    var line, end, tail := pending[..t], [pending[t]], pending[t + 1..];
    NoPairs(line);
    assert !Meets(line, end + tail);
    PairsConcat(line, end + tail);
    CutAround(pending, t);
    PairsConcat(end, tail);
    if TerminatorLength(pending, t) == 2 {
      LineFeedPairs(tail);
      DropTwice(pending, t + 1, 1);
    }
  }

  lemma LineFeedPairs(tail: Text)
    requires tail != [] && tail[0] == LF
    ensures Pairs(tail) == Pairs(tail[1..])
  {}

  lemma SegmentsAt(pending: Text, t: nat)
    requires t < |pending| && t == FirstTerminator(pending)
    ensures |Segments(pending)|
            == TerminatorLength(pending, t) + |Segments(pending[t + TerminatorLength(pending, t)..])|
  {
    if TerminatorLength(pending, t) == 2 {
      LeadingLineFeed(pending[t + 1..]);
      DropTwice(pending, t + 1, 1);
    }
  }

  /** Draining takes the first line, and goes on with the rest unless the line exits. */
  lemma DrainFirst(pending: Text, t: nat, rest: Text, later: Drained)
    requires t < |pending| && t == FirstTerminator(pending)
    requires rest == pending[t + TerminatorLength(pending, t)..] && later == Drain(rest)
    ensures Exits(pending[..t]) ==> Drain(pending) == Drained(false, [pending[..t]], rest)
    ensures !Exits(pending[..t]) ==>
              Drain(pending) == Drained(later.keep, [pending[..t]] + later.handled, later.rest)
  {}

  /** A buffer drained to the end completes one line for each segment, less one for each CR-LF pair. */
  lemma {:induction false} DrainCounts(pending: Text)
    requires Drain(pending).keep
    ensures |Drain(pending).handled| + Pairs(pending) == |Segments(pending)|
    decreases |pending|
  {
    var t := FirstTerminator(pending);
    if t == |pending| {
      NothingCounts(pending);
    } else {
      var n := TerminatorLength(pending, t);
      var rest := pending[t + n..];
      DrainFirst(pending, t, rest, Drain(rest));
      PairsAt(pending, t);
      SegmentsAt(pending, t);
      DrainCounts(rest);
    }
  }

  lemma NothingCounts(pending: Text)
    requires FirstTerminator(pending) == |pending|
    ensures Pairs(pending) == 0 && Segments(pending) == [] && Drain(pending).handled == []
  {
    NoPairs(pending);
  }

  lemma BufferCounts(before: Text, payload: Text)
    requires Drain(Remainder(before) + payload).keep
    ensures var buffer := Remainder(before) + payload;
            && |Drain(buffer).handled| + Pairs(before + payload)
               == |Segments(buffer)| + Pairs(before) + (if Meets(before, payload) then 1 else 0)
            && Drain(buffer).rest == Remainder(before + payload) == Remainder(buffer)
  {
    var pending := Remainder(before);
    RemainderOpen(before);
    NoPairs(pending);
    PairsConcat(pending, payload);
    PairsConcat(before, payload);
    DrainCounts(pending + payload);
    DrainSegments(pending + payload);
    SegmentsConcat(before, payload);
  }

  /** Lines handled plus pairs typed, against segments completed plus pairs cut. */
  predicate Balanced(before: Text, payloads: seq<Text>) {
    var text := Concat(payloads);
    |Feed(Remainder(before), payloads).handled| + Pairs(before + text)
    == |Segments(Remainder(before) + text)| + Pairs(before) + CutPairs(before, payloads)
  }

  lemma FeedNothing(before: Text)
    ensures Balanced(before, [])
  {
    Open(before);
    assert before + Concat([]) == before && Remainder(before) + Concat([]) == Remainder(before);
  }

  lemma FeedUnfolds(pending: Text, payloads: seq<Text>)
    requires payloads != [] && Feed(pending, payloads).keep
    ensures Drain(pending + payloads[0]).keep
    ensures Feed(Drain(pending + payloads[0]).rest, payloads[1..]).keep
    ensures |Feed(pending, payloads).handled|
            == |Drain(pending + payloads[0]).handled|
               + |Feed(Drain(pending + payloads[0]).rest, payloads[1..]).handled|
  {}

  lemma Regroup(before: Text, payloads: seq<Text>)
    requires payloads != []
    ensures before + payloads[0] + Concat(payloads[1..]) == before + Concat(payloads)
    ensures CutPairs(before, payloads)
            == (if Meets(before, payloads[0]) then 1 else 0) + CutPairs(before + payloads[0], payloads[1..])
  {
    Associates(before, payloads[0], Concat(payloads[1..]));
  }

  lemma SegmentsOf(buffer: Text, rest: Text, whole: Text)
    requires whole == buffer + rest
    ensures |Segments(whole)| == |Segments(buffer)| + |Segments(Remainder(buffer) + rest)|
  {
    SegmentsConcat(buffer, rest);
  }

  lemma {:induction false} FeedCounts(before: Text, payloads: seq<Text>)
    requires Feed(Remainder(before), payloads).keep
    ensures Balanced(before, payloads)
    decreases |payloads|
  {
    if payloads == [] {
      FeedNothing(before);
    } else {
      var now, buffer, rest := before + payloads[0], Remainder(before) + payloads[0], Concat(payloads[1..]);
      FeedUnfolds(Remainder(before), payloads);
      BufferCounts(before, payloads[0]);
      FeedCounts(now, payloads[1..]);
      Regroup(before, payloads);
      Regroup(Remainder(before), payloads);
      SegmentsOf(buffer, rest, Remainder(before) + Concat(payloads));
    }
  }

  /**
   * What the cut does change is the prompting: while the shell goes on, it prompts once more than for the whole text
   * in one payload for each CR-LF pair that a payload boundary cuts, and otherwise just as often.
   */
  lemma CutPairsPrompt(payloads: seq<Text>)
    requires Feed([], payloads).keep
    ensures Prompts(Outputs(Feed([], payloads).handled))
            == Prompts(Outputs(Drain(Concat(payloads)).handled)) + CutPairs([], payloads)
  {
    var text := Concat(payloads);
    assert [] + text == text;
    FeedCounts([], payloads);
    FeedSegments([], payloads);
    DrainSegments(text);
    DrainCounts(text);
    BlanksPrompt(Feed([], payloads).handled);
    BlanksPrompt(Drain(text).handled);
  }
}
