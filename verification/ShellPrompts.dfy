/**
 How often the ConPTY shell (apps/desktop/native/SovereignNativeAgent.cs) prompts, whether or not the text ends it: only
 what is typed before the line that exits matters.
 */
module ShellPrompts {
  import opened CodeUnits
  import opened Sequences
  import opened ShellInput

  /** The position of the terminator that completes the first segment that exits, or the length of the text. */
  function ExitAt(text: Text): (n: nat)
    ensures n <= |text|
    decreases |text|
  {
    var t := FirstTerminator(text);
    if t == |text| || Exits(text[..t]) then t else t + 1 + ExitAt(text[t + 1..])
  }

  /** The first `n` units typed, in their payloads. */
  function Upto(payloads: seq<Text>, n: nat): seq<Text> {
    if payloads == [] then []
    else if n < |payloads[0]| then [payloads[0][..n]]
    else [payloads[0]] + Upto(payloads[1..], n - |payloads[0]|)
  }

  /** What is typed before the terminator of the line that exits; everything, if none does. */
  function BeforeExit(payloads: seq<Text>): seq<Text> { Upto(payloads, ExitAt(Concat(payloads))) }

  // --- where the first exit stands ---

  lemma ExitFirst(text: Text, line: Text, end: CodeUnit, tail: Text)
    requires text == line + ([end] + tail) && Terminator(end)
    requires forall i :: 0 <= i < |line| ==> !Terminator(line[i])
    ensures ExitAt(text) == if Exits(line) then |line| else |line| + 1 + ExitAt(tail)
    ensures AnyExits(Segments(text)) <==> Exits(line) || AnyExits(Segments(tail))
  {
    FirstSegment(text, line, end, tail);
    PartsAround(line, end, tail);
    assert ([line] + Segments(tail))[1..] == Segments(tail);
  }

  /** No terminator stands in the text. */
  predicate Unfinished(text: Text) { forall i :: 0 <= i < |text| ==> !Terminator(text[i]) }

  lemma UnfinishedText(text: Text)
    requires Unfinished(text)
    ensures FirstTerminator(text) == |text| && Segments(text) == [] && Remainder(text) == text && ExitAt(text) == |text|
    ensures Drain(text) == Drained(true, [], text)
  {}

  lemma {:induction false} ExitAtConcat(a: Text, b: Text)
    ensures |Remainder(a)| <= |a|
    ensures AnyExits(Segments(a)) ==> ExitAt(a + b) == ExitAt(a) < |a|
    ensures !AnyExits(Segments(a)) ==> ExitAt(a + b) == |a| - |Remainder(a)| + ExitAt(Remainder(a) + b)
    decreases |a|
  {
    var t := FirstTerminator(a);
    if t < |a| {
      var line, tail := a[..t], a[t + 1..];
      CutAround(a, t);
      ExitFirst(a, line, a[t], tail);
      FirstSegment(a, line, a[t], tail);
      Shifted(line, a[t], tail, b);
      ExitFirst(a + b, line, a[t], tail + b);
      ExitAtConcat(tail, b);
    }
  }

  lemma {:induction false} NoExitAt(text: Text)
    requires !AnyExits(Segments(text))
    ensures ExitAt(text) == |text|
    decreases |text|
  {
    var t := FirstTerminator(text);
    if t < |text| {
      CutAround(text, t);
      ExitFirst(text, text[..t], text[t], text[t + 1..]);
      NoExitAt(text[t + 1..]);
    }
  }

  /** Behind unfinished text, an exit is completed later. */
  lemma ExitBehind(head: Text, more: Text)
    requires Unfinished(head)
    ensures ExitAt(head + more) >= |head|
  {
    assert forall i :: 0 <= i < |head| ==> (head + more)[i] == head[i];
  }

  // --- one buffer ---

  /** The same lines, and then one that exits. */
  predicate OneExitMore(before: seq<Text>, handled: seq<Text>) {
    |handled| == |before| + 1 && handled == before + [handled[|before|]] && Exits(handled[|before|])
  }

  lemma OneExitMoreBehind(first: seq<Text>, before: seq<Text>, handled: seq<Text>)
    requires OneExitMore(before, handled)
    ensures OneExitMore(first + before, first + handled)
  {
    Associates(first, before, [handled[|before|]]);
  }

  /** One went on and the other handled the same lines and then exited. */
  predicate ReachesExit(before: Drained, whole: Drained) { before.keep && OneExitMore(before.handled, whole.handled) }

  /** What a drain takes as the end of a line, with this text behind it. */
  predicate Ending(ending: Text, rest: Text) {
    || ending == [CR, LF]
    || (|ending| == 1 && Terminator(ending[0]) && (ending[0] == CR && rest != [] ==> rest[0] != LF))
  }

  lemma DrainLine(text: Text, line: Text, ending: Text, rest: Text)
    requires text == line + (ending + rest) && Unfinished(line)
    requires Ending(ending, rest)
    ensures Drain(text) == if Exits(line) then Drained(false, [line], rest)
                           else Drained(Drain(rest).keep, [line] + Drain(rest).handled, Drain(rest).rest)
  {
    PartsAround(line, ending[0], ending[1..] + rest);
    assert ending + rest == [ending[0]] + (ending[1..] + rest);
    FirstIn(text, |line|);
    assert text[|line| + |ending|..] == rest;
    assert TerminatorLength(text, |line|) == |ending|;
    DrainFirst(text, |line|, rest, Drain(rest));
  }

  /** Where the exit stands, by the whole terminator of the line before it. */
  lemma ExitPast(line: Text, ending: Text, rest: Text)
    requires Unfinished(line) && !Exits(line)
    requires ending == [CR, LF] || (|ending| == 1 && Terminator(ending[0]))
    ensures var text := line + (ending + rest);
            && ExitAt(text) == |line| + |ending| + ExitAt(rest)
            && (AnyExits(Segments(text)) <==> AnyExits(Segments(rest)))
  {
    var text, after := line + (ending + rest), ending[1..] + rest;
    assert ending + rest == [ending[0]] + after;
    ExitFirst(text, line, ending[0], after);
    if |ending| == 2 {
      assert after == [] + ([LF] + rest);
      ExitFirst(after, [], LF, rest);
      assert !Exits([]);
    } else {
      assert after == rest;
    }
  }

  lemma LineToExit(line: Text, ending: Text, rest: Text, typed: Text)
    requires Unfinished(line) && !Exits(line) && typed <= rest && Ending(ending, rest)
    requires ReachesExit(Drain(typed), Drain(rest))
    ensures ReachesExit(Drain(line + (ending + typed)), Drain(line + (ending + rest)))
  {
    DrainLine(line + (ending + rest), line, ending, rest);
    DrainLine(line + (ending + typed), line, ending, typed);
    OneExitMoreBehind([line], Drain(typed).handled, Drain(rest).handled);
  }

  lemma ExitNow(line: Text, ending: Text, rest: Text)
    requires Unfinished(line) && Exits(line) && Ending(ending, rest)
    ensures ReachesExit(Drain(line), Drain(line + (ending + rest)))
  {
    DrainLine(line + (ending + rest), line, ending, rest);
    UnfinishedText(line);
  }

  lemma CutLine(line: Text, ending: Text, rest: Text, before: Text) returns (typed: Text)
    requires before <= line + (ending + rest) && |before| >= |line| + |ending|
    ensures before == line + (ending + typed) && typed <= rest
  {
    var n := |line| + |ending|;
    typed := before[n..];
    var text := line + (ending + rest);
    assert before == text[..|before|] && text[n..] == rest && text[..n] == line + ending;
    assert typed == rest[..|typed|];
    assert before[..n] == line + ending;
    assert before == before[..n] + typed;
  }

  /** The first line of a text, what ends it, and the rest. */
  lemma FirstLine(text: Text) returns (line: Text, ending: Text, rest: Text)
    requires AnyExits(Segments(text))
    ensures text == line + (ending + rest) && Unfinished(line) && |rest| < |text| && Ending(ending, rest)
    ensures Exits(line) ==> ExitAt(text) == |line| < |text|
  {
    var t := FirstTerminator(text);
    var n := TerminatorLength(text, t);
    line, ending, rest := text[..t], text[t..t + n], text[t + n..];
  }

  /** A drain that exits is the drain of what stands before the exit, and then the exit. */
  lemma {:induction false} DrainToExit(text: Text, before: Text)
    requires AnyExits(Segments(text)) && before <= text && |before| == ExitAt(text)
    ensures |before| < |text| && ReachesExit(Drain(before), Drain(text))
    decreases |text|
  {
    var line, ending, rest := FirstLine(text);
    if Exits(line) {
      assert before == line;
      ExitNow(line, ending, rest);
    } else {
      ExitPast(line, ending, rest);
      var typed := CutLine(line, ending, rest, before);
      DrainToExit(rest, typed);
      LineToExit(line, ending, rest, typed);
    }
  }

  lemma DrainStops(text: Text)
    requires AnyExits(Segments(text))
    ensures !Drain(text).keep
  {
    DrainSegments(text);
  }

  // --- any split into payloads ---

  lemma {:induction false} UptoConcat(payloads: seq<Text>, n: nat)
    requires n <= |Concat(payloads)|
    ensures Concat(Upto(payloads, n)) == Concat(payloads)[..n]
    ensures n == |Concat(payloads)| ==> Upto(payloads, n) == payloads
  {
    if payloads != [] {
      var first, rest := payloads[0], payloads[1..];
      if n < |first| {
        assert [first[..n]][1..] == [];
        assert first[..n] + [] == first[..n];
      } else {
        var later := Upto(rest, n - |first|);
        UptoConcat(rest, n - |first|);
        assert ([first] + later)[1..] == later;
        assert payloads == [first] + rest;
      }
    }
  }

  lemma FeedOne(pending: Text, payload: Text)
    ensures Feed(pending, [payload]).keep == Drain(pending + payload).keep
    ensures Feed(pending, [payload]).handled == Drain(pending + payload).handled
  {
    assert [payload][1..] == [];
    assert Drain(pending + payload).handled + [] == Drain(pending + payload).handled;
  }

  lemma FeedMore(pending: Text, payload: Text, payloads: seq<Text>)
    ensures var first := Drain(pending + payload);
            var later := Feed(first.rest, payloads);
            Feed(pending, [payload] + payloads)
            == if first.keep then Drained(later.keep, first.handled + later.handled, later.rest) else first
  {
    assert ([payload] + payloads)[1..] == payloads;
  }

  lemma StopsNow(pending: Text, first: Text, rest: seq<Text>, typed: Text)
    requires AnyExits(Segments(pending + first))
    requires typed <= first && |pending| + |typed| == ExitAt(pending + first)
    ensures |typed| < |first| && ReachesExit(Feed(pending, [typed]), Feed(pending, [first] + rest))
  {
    DrainToExit(pending + first, pending + typed);
    DrainStops(pending + first);
    FeedMore(pending, first, rest);
    FeedOne(pending, typed);
  }

  lemma StopsLater(pending: Text, first: Text, before: seq<Text>, rest: seq<Text>)
    requires Drain(pending + first).keep
    requires ReachesExit(Feed(Drain(pending + first).rest, before), Feed(Drain(pending + first).rest, rest))
    ensures ReachesExit(Feed(pending, [first] + before), Feed(pending, [first] + rest))
  {
    var now := Drain(pending + first);
    FeedMore(pending, first, before);
    FeedMore(pending, first, rest);
    OneExitMoreBehind(now.handled, Feed(now.rest, before).handled, Feed(now.rest, rest).handled);
  }

  lemma UptoFirst(first: Text, rest: seq<Text>, n: nat)
    ensures Upto([first] + rest, n) == if n < |first| then [first[..n]] else [first] + Upto(rest, n - |first|)
  {
    assert ([first] + rest)[1..] == rest;
  }

  /** The exit is completed in this buffer, or behind what is left of it. */
  lemma ExitWhere(buffer: Text, more: Text)
    requires AnyExits(Segments(buffer + more))
    ensures AnyExits(Segments(buffer)) ==> ExitAt(buffer + more) == ExitAt(buffer)
    ensures !AnyExits(Segments(buffer)) ==>
              && Drain(buffer).keep && Unfinished(Drain(buffer).rest)
              && AnyExits(Segments(Drain(buffer).rest + more))
              && ExitAt(Drain(buffer).rest + more) >= |Drain(buffer).rest|
              && ExitAt(buffer + more) - |buffer| == ExitAt(Drain(buffer).rest + more) - |Drain(buffer).rest|
  {
    ExitAtConcat(buffer, more);
    DrainSegments(buffer);
    SegmentsConcat(buffer, more);
    AnyExitsConcat(Segments(buffer), Segments(Remainder(buffer) + more));
    RemainderOpen(buffer);
    ExitBehind(Remainder(buffer), more);
  }

  lemma NothingExits(pending: Text)
    requires Unfinished(pending)
    ensures !AnyExits(Segments(pending + Concat([])))
  {
    assert pending + Concat([]) == pending;
    UnfinishedText(pending);
  }

  /** Feeding payloads that exit is feeding what is typed before the exit, and then the exit. */
  lemma {:induction false} FeedToExit(pending: Text, payloads: seq<Text>, text: Text, n: nat)
    requires Unfinished(pending) && text == pending + Concat(payloads) && AnyExits(Segments(text))
    requires |pending| + n == ExitAt(text)
    ensures ReachesExit(Feed(pending, Upto(payloads, n)), Feed(pending, payloads))
    decreases |payloads|
  {
    NothingExits(pending);
    var first, rest := payloads[0], payloads[1..];
    var buffer, more := pending + first, Concat(rest);
    assert payloads == [first] + rest;
    Associates(pending, first, more);
    ExitWhere(buffer, more);
    UptoFirst(first, rest, n);
    if AnyExits(Segments(buffer)) {
      StopsWithin(pending, first, rest, n);
    } else {
      var left := Drain(buffer).rest;
      FeedToExit(left, rest, left + more, n - |first|);
      StopsLater(pending, first, Upto(rest, n - |first|), rest);
    }
  }

  lemma StopsWithin(pending: Text, first: Text, rest: seq<Text>, n: nat)
    requires AnyExits(Segments(pending + first)) && |pending| + n == ExitAt(pending + first)
    ensures n < |first| && ReachesExit(Feed(pending, [first[..n]]), Feed(pending, [first] + rest))
  {
    if n <= |first| { StopsNow(pending, first, rest, first[..n]); }
  }

  // --- prompts ---

  lemma ExitPromptsNot(before: seq<Text>, handled: seq<Text>)
    requires OneExitMore(before, handled)
    ensures Prompts(Outputs(handled)) == Prompts(Outputs(before))
  {
    BlanksPrompt(before);
    BlanksPrompt(handled);
    ShownLast(before, handled[|before|]);
  }

  lemma {:induction false} ShownLast(lines: seq<Text>, command: Text)
    requires Exits(command)
    ensures Shown(lines + [command]) == Shown(lines) + 1
  {
    if lines == [] {
      assert [] + [command] == [command] && [command][1..] == [];
    } else {
      assert (lines + [command])[1..] == lines[1..] + [command];
      ShownLast(lines[1..], command);
    }
  }

  /**
   However typed text is cut into payloads, and whether or not it ends the shell, the shell prompts once more than for
   the whole text in one payload for each CR-LF pair that a payload boundary cuts before the exit, and otherwise just
   as often.
   */
  lemma PromptsExactly(payloads: seq<Text>)
    ensures Prompts(Outputs(Feed([], payloads).handled))
            == Prompts(Outputs(Drain(Concat(payloads)).handled)) + CutPairs([], BeforeExit(payloads))
  {
    SplitImmaterial(payloads);
    UptoConcat(payloads, ExitAt(Concat(payloads)));
    if Feed([], payloads).keep {
      NoExitAt(Concat(payloads));
      CutPairsPrompt(payloads);
    } else {
      StoppedPrompts(payloads, Concat(payloads), ExitAt(Concat(payloads)));
    }
  }

  lemma StoppedPrompts(payloads: seq<Text>, text: Text, n: nat)
    requires text == Concat(payloads) && AnyExits(Segments(text)) && n == ExitAt(text)
    ensures Prompts(Outputs(Feed([], payloads).handled))
            == Prompts(Outputs(Drain(text).handled)) + CutPairs([], Upto(payloads, n))
  {
    var typed, before := Upto(payloads, n), text[..n];
    assert [] + text == text;
    UptoConcat(payloads, n);
    FeedToExit([], payloads, text, n);
    DrainToExit(text, before);
    CutPairsPrompt(typed);
    StoppedAlike(Feed([], typed), Feed([], payloads), Drain(before), Drain(text), CutPairs([], typed));
  }

  lemma StoppedAlike(before: Drained, fed: Drained, whole: Drained, drained: Drained, more: nat)
    requires ReachesExit(before, fed) && ReachesExit(whole, drained)
    requires Prompts(Outputs(before.handled)) == Prompts(Outputs(whole.handled)) + more
    ensures Prompts(Outputs(fed.handled)) == Prompts(Outputs(drained.handled)) + more
  {
    ExitPromptsNot(before.handled, fed.handled);
    ExitPromptsNot(whole.handled, drained.handled);
  }
}
