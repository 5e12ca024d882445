/** What the ConPTY shell takes for a blank line, an exit, a command (apps/desktop/native/SovereignNativeAgent.cs). */
module ShellWords {
  import opened CodeUnits
  import opened Sequences
  import opened ShellInput
  import opened ConPtyShell

  predicate AllWhite(text: Text) { forall i :: 0 <= i < |text| ==> WhiteSpace(text[i]) }

  /** The word stands in the text with nothing but white space around it, and neither begins nor ends with any. */
  predicate TrimmedTo(text: Text, before: Text, word: Text, after: Text) {
    && text == before + word + after && AllWhite(before) && AllWhite(after)
    && (word != [] ==> !WhiteSpace(word[0]) && !WhiteSpace(word[|word| - 1]))
  }

  lemma {:induction false} StartTrimmed(text: Text) returns (before: Text)
    ensures text == before + TrimStart(text) && AllWhite(before)
    ensures TrimStart(text) != [] ==> !WhiteSpace(TrimStart(text)[0])
  {
    if text != [] && WhiteSpace(text[0]) {
      var more := StartTrimmed(text[1..]);
      before := [text[0]] + more;
      assert text == [text[0]] + text[1..];
    } else {
      before := [];
    }
  }

  lemma {:induction false} EndTrimmed(text: Text) returns (after: Text)
    ensures text == TrimEnd(text) + after && AllWhite(after)
    ensures TrimEnd(text) != [] ==> !WhiteSpace(TrimEnd(text)[|TrimEnd(text)| - 1])
  {
    if text != [] && WhiteSpace(text[|text| - 1]) {
      var less := EndTrimmed(text[..|text| - 1]);
      after := less + [text[|text| - 1]];
      assert text == text[..|text| - 1] + [text[|text| - 1]];
    } else {
      after := [];
      assert text + [] == text;
    }
  }

  /** Trimming takes the white space off both ends and nothing else. */
  lemma TrimMeans(text: Text) returns (before: Text, after: Text)
    ensures TrimmedTo(text, before, Trim(text), after)
  {
    before := StartTrimmed(text);
    after := EndTrimmed(TrimStart(text));
    var word := Trim(text);
    if word != [] { assert word[0] == TrimStart(text)[0]; }
    assert before + (word + after) == before + word + after;
  }

  /** A blank line is one of white space only. */
  lemma BlankMeans(text: Text)
    ensures Blank(text) <==> AllWhite(text)
  {
    var before, after := TrimMeans(text);
    var word := Trim(text);
    if word != [] { assert text[|before|] == word[0]; }
    if word == [] { assert before + [] + after == before + after; }
  }

  /** The four letters of "exit", each in upper or lower case. */
  predicate ExitWord(word: Text) {
    |word| == 4 && forall i :: 0 <= i < 4 ==> word[i] in {"exit"[i] as int, "EXIT"[i] as int}
  }

  lemma ExitsMeans(text: Text)
    ensures Exits(text) <==> ExitWord(Trim(text))
  {
    assert "exit"[0] as int == 101 && "exit"[1] as int == 120 && "exit"[2] as int == 105 && "exit"[3] as int == 116;
    assert "EXIT"[0] as int == 69 && "EXIT"[1] as int == 88 && "EXIT"[2] as int == 73 && "EXIT"[3] as int == 84;
  }

  /** A line among others is queued exactly if it is neither blank nor an exit, and prompts exactly if it is blank. */
  lemma LineMeans(before: seq<Text>, line: Text, after: seq<Text>)
    ensures Commands(before + [line] + after)
            == Commands(before) + (if AllWhite(line) || ExitWord(Trim(line)) then [] else [line]) + Commands(after)
    ensures Outputs(before + [line] + after)
            == Outputs(before) + (if AllWhite(line) then [Line(line), Prompt] else [Line(line)]) + Outputs(after)
  {
    BlankMeans(line);
    ExitsMeans(line);
    OneLine(line);
    LinesConcat(before, [line]);
    LinesConcat(before + [line], after);
  }
}
