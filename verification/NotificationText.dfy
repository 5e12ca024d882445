/** Notification text of the desktop agent (apps/desktop/native/SovereignNativeAgent.cs), built up in a loop. */
module NotificationText {
  import opened Results
  import opened CodeUnits
  import opened ShellInput

  const SPACE: CodeUnit := 32

  /** Char.IsControl. */
  predicate Control(unit: CodeUnit) { unit <= 0x1F || 0x7F <= unit <= 0x9F }

  predicate Gap(unit: CodeUnit) { Control(unit) || WhiteSpace(unit) }

  datatype Refusal = Required | TooLong | Invisible

  /** The visible words of a text: its maximal runs without control characters and white space. */
  function Words(text: Text): seq<Text> {
    if text == [] then []
    else
      var front, last := text[..|text| - 1], text[|text| - 1];
      if Gap(last) then Words(front)
      else if front == [] || Gap(front[|front| - 1]) then Words(front) + [[last]]
      else Extend(Words(front), last)
  }

  function Extend(words: seq<Text>, unit: CodeUnit): seq<Text> {
    if words == [] then [[unit]] else words[..|words| - 1] + [words[|words| - 1] + [unit]]
  }

  /** The words with one space between neighbours. */
  function Join(words: seq<Text>): Text {
    if words == [] then []
    else if |words| == 1 then words[0]
    else Join(words[..|words| - 1]) + [SPACE] + words[|words| - 1]
  }

  function Normalized(text: Text, maximum: nat): Result<Text, Refusal> {
    var joined := Join(Words(text));
    if |joined| > maximum then Failure(TooLong)
    else if joined == [] then Failure(Invisible)
    else Success(joined)
  }

  /** Words are never empty and hold no gaps. */
  predicate Proper(words: seq<Text>) {
    forall i :: 0 <= i < |words| ==> words[i] != [] && forall j :: 0 <= j < |words[i]| ==> !Gap(words[i][j])
  }

  lemma {:induction false} WordsProper(text: Text)
    ensures Proper(Words(text))
    ensures text != [] && !Gap(text[|text| - 1]) ==> Words(text) != []
  {
    if text != [] {
      var front, last := text[..|text| - 1], text[|text| - 1];
      WordsProper(front);
      if !Gap(last) { UnitProper(Words(front), last); }
    }
  }

  lemma UnitProper(words: seq<Text>, unit: CodeUnit)
    requires Proper(words) && !Gap(unit)
    ensures Proper(words + [[unit]]) && Proper(Extend(words, unit)) && Extend(words, unit) != []
  {}

  /** Joined words begin and end visibly, so the final Trim has nothing to remove. */
  lemma {:induction false} JoinEnds(words: seq<Text>)
    requires Proper(words) && words != []
    ensures Join(words) != [] && !Gap(Join(words)[0]) && !Gap(Join(words)[|Join(words)| - 1])
  {
    if |words| > 1 { JoinEnds(words[..|words| - 1]); }
  }

  lemma JoinExtend(words: seq<Text>, unit: CodeUnit)
    requires words != []
    ensures Join(Extend(words, unit)) == Join(words) + [unit]
  {
    var front := words[..|words| - 1];
    assert Extend(words, unit)[..|words| - 1] == front;
    if |words| > 1 {
      assert Join(front) + [SPACE] + (words[|words| - 1] + [unit]) == Join(words) + [unit];
    }
  }

  lemma JoinSnoc(words: seq<Text>, word: Text)
    ensures Join(words + [word]) == (if words == [] then word else Join(words) + [SPACE] + word)
  {
    assert (words + [word])[..|words|] == words;
  }

  /** The text read so far never gets shorter by reading more. */
  lemma {:induction false} JoinGrows(text: Text, n: nat)
    requires n <= |text|
    ensures |Join(Words(text[..n]))| <= |Join(Words(text))|
    decreases |text|
  {
    if n == |text| {
      assert text[..n] == text;
    } else {
      var front, last := text[..|text| - 1], text[|text| - 1];
      assert front[..n] == text[..n];
      JoinGrows(front, n);
      if !Gap(last) {
        if front == [] || Gap(front[|front| - 1]) {
          JoinSnoc(Words(front), [last]);
        } else {
          WordsProper(front);
          JoinExtend(Words(front), last);
        }
      }
    }
  }

  lemma TooLongStays(text: Text, n: nat, maximum: nat)
    requires n <= |text| && |Join(Words(text[..n]))| > maximum
    ensures Normalized(text, maximum) == Failure(TooLong)
  {
    JoinGrows(text, n);
  }

  lemma TrimmedAlready(text: Text)
    ensures Trim(Join(Words(text))) == Join(Words(text))
  {
    WordsProper(text);
    if Words(text) != [] { JoinEnds(Words(text)); }
    NothingToTrim(Join(Words(text)));
  }

  lemma NothingToTrim(text: Text)
    requires text == [] || (!Gap(text[0]) && !Gap(text[|text| - 1]))
    ensures Trim(text) == text
  {}

  /** Collapses gaps to single spaces, counting visible characters and those spaces against the maximum. */
  method NormalizeNotificationText(value: Option<Text>, maximum: nat) returns (r: Result<Text, Refusal>)
    ensures r == if value.None? then Failure(Required) else Normalized(value.value, maximum)
  {
    if value.None? { return Failure(Required); }
    var text := value.value;
    var normalized: Text := [];
    var pendingSpace := false;
    var index := 0;
    while index < |text|
      invariant 0 <= index <= |text|
      invariant normalized == Join(Words(text[..index])) && |normalized| <= maximum
      invariant pendingSpace <==> index > 0 && Gap(text[index - 1]) && normalized != []
    {
      var character := text[index];
      Read(text, index);
      if Gap(character) {
        pendingSpace := normalized != [];
      } else {
        if pendingSpace {
          normalized := normalized + [SPACE];
          pendingSpace := false;
        }
        normalized := normalized + [character];
        if |normalized| > maximum {
          TooLongStays(text, index + 1, maximum);
          return Failure(TooLong);
        }
      }
      index := index + 1;
    }
    assert text[..index] == text;
    TrimmedAlready(text);
    var result := Trim(normalized);
    if result == [] { return Failure(Invisible); }
    return Success(result);
  }

  /** What reading one more character does to the joined words. */
  lemma Read(text: Text, index: nat)
    requires index < |text|
    ensures var before, after := Join(Words(text[..index])), Join(Words(text[..index + 1]));
            after == if Gap(text[index]) then before
                     else if before == [] then [text[index]]
                     else if Gap(text[index - 1]) then before + [SPACE] + [text[index]]
                     else before + [text[index]]
    ensures Join(Words(text[..index])) != [] ==> index > 0
  {
    var now, next := text[..index], text[..index + 1];
    assert next[..index] == now && next[index] == text[index];
    WordsProper(now);
    if Words(now) != [] { JoinEnds(Words(now)); }
    if !Gap(text[index]) {
      if now == [] || Gap(now[|now| - 1]) {
        JoinSnoc(Words(now), [text[index]]);
      } else {
        JoinExtend(Words(now), text[index]);
      }
    }
  }

  // ----- what is kept -----

  function Visible(text: Text): Text {
    if text == [] then []
    else Visible(text[..|text| - 1]) + if Gap(text[|text| - 1]) then [] else [text[|text| - 1]]
  }

  function Flat(words: seq<Text>): Text {
    if words == [] then [] else Flat(words[..|words| - 1]) + words[|words| - 1]
  }

  /** The words hold every visible character, once and in order. */
  lemma {:induction false} WordsKeepVisible(text: Text)
    ensures Flat(Words(text)) == Visible(text)
  {
    if text != [] {
      var front, last := text[..|text| - 1], text[|text| - 1];
      WordsKeepVisible(front);
      var words := Words(front);
      if !Gap(last) {
        if front == [] || Gap(front[|front| - 1]) {
          assert (words + [[last]])[..|words|] == words;
        } else {
          WordsProper(front);
          var extended := Extend(words, last);
          assert extended[..|extended| - 1] == words[..|words| - 1];
          assert Flat(extended) == Flat(words[..|words| - 1]) + (words[|words| - 1] + [last]);
        }
      }
    }
  }

  lemma {:induction false} WordBehindGap(text: Text, word: Text)
    requires word != [] && forall j :: 0 <= j < |word| ==> !Gap(word[j])
    requires text == [] || Gap(text[|text| - 1])
    ensures Words(text + word) == Words(text) + [word]
    decreases |word|
  {
    var front, last := word[..|word| - 1], word[|word| - 1];
    assert word == front + [last];
    Regroup(text, front, last);
    WordsSnoc(text + front, last);
    if front == [] {
      assert text + front == text;
    } else {
      WordBehindGap(text, front);
      ExtendLast(Words(text), front, last);
    }
  }

  lemma Regroup(a: Text, b: Text, unit: CodeUnit)
    ensures a + (b + [unit]) == (a + b) + [unit]
    ensures b != [] ==> (a + b)[|a + b| - 1] == b[|b| - 1]
  {}

  lemma WordsSnoc(text: Text, unit: CodeUnit)
    ensures Words(text + [unit])
            == if Gap(unit) then Words(text)
               else if text == [] || Gap(text[|text| - 1]) then Words(text) + [[unit]]
               else Extend(Words(text), unit)
  {
    var whole := text + [unit];
    assert whole[..|whole| - 1] == text;
  }

  lemma ExtendLast(words: seq<Text>, word: Text, unit: CodeUnit)
    ensures Extend(words + [word], unit) == words + [word + [unit]]
  {}

  lemma SpacedWord(text: Text, word: Text)
    requires word != [] && forall j :: 0 <= j < |word| ==> !Gap(word[j])
    ensures Words(text + [SPACE] + word) == Words(text) + [word]
  {
    WordsSnoc(text, SPACE);
    WordBehindGap(text + [SPACE], word);
  }

  lemma OneMoreWord(front: seq<Text>, last: Text)
    requires Words(Join(front)) == front
    requires last != [] && forall j :: 0 <= j < |last| ==> !Gap(last[j])
    ensures Words(Join(front + [last])) == front + [last]
  {
    JoinSnoc(front, last);
    if front == [] {
      WordBehindGap([], last);
      assert [] + last == last && front + [last] == [last];
    } else {
      SpacedWord(Join(front), last);
    }
  }

  lemma {:induction false} WordsOfJoin(words: seq<Text>)
    requires Proper(words)
    ensures Words(Join(words)) == words
  {
    if words != [] {
      var front, last := words[..|words| - 1], words[|words| - 1];
      assert words == front + [last];
      WordsOfJoin(front);
      OneMoreWord(front, last);
    }
  }

  /** An accepted text is its own normal form, and keeps exactly the visible characters. */
  lemma NormalizedStable(text: Text, maximum: nat)
    requires Normalized(text, maximum).Success?
    ensures Normalized(Normalized(text, maximum).value, maximum) == Normalized(text, maximum)
    ensures Visible(Normalized(text, maximum).value) == Visible(text)
  {
    WordsProper(text);
    WordsOfJoin(Words(text));
    WordsKeepVisible(text);
    WordsKeepVisible(Join(Words(text)));
  }

  // ----- what decides the answer, character by character -----

  /** A visible character with nothing visible right before it. */
  predicate Begins(text: Text, i: nat)
    requires i < |text|
  {
    !Gap(text[i]) && (i == 0 || Gap(text[i - 1]))
  }

  /** For each visible character, whether it begins a word. */
  function Marks(text: Text): seq<bool> {
    if text == [] then []
    else
      var last := |text| - 1;
      Marks(text[..last]) + if Gap(text[last]) then [] else [Begins(text, last)]
  }

  function Count(marks: seq<bool>): nat {
    if marks == [] then 0 else Count(marks[..|marks| - 1]) + if marks[|marks| - 1] then 1 else 0
  }

  /** The length of the visible characters with one space between the words. */
  function SpacedLength(text: Text): int {
    |Visible(text)| + Count(Marks(text)) - if Visible(text) == [] then 0 else 1
  }

  function MarksOf(words: seq<Text>): seq<bool> {
    if words == [] then []
    else
      var last := words[|words| - 1];
      MarksOf(words[..|words| - 1]) + WordMarks(|last|)
  }

  function WordMarks(n: nat): (marks: seq<bool>)
    ensures |marks| == n && forall j :: 0 <= j < n ==> marks[j] == (j == 0)
  {
    seq(n, j => j == 0)
  }

  lemma {:induction false} MarksOfWords(text: Text)
    ensures Marks(text) == MarksOf(Words(text))
  {
    if text != [] {
      var front, last := text[..|text| - 1], text[|text| - 1];
      MarksOfWords(front);
      if !Gap(last) {
        if front == [] || Gap(front[|front| - 1]) {
          MarksSnoc(Words(front), last);
        } else {
          WordsProper(front);
          var words := Words(front);
          assert words == words[..|words| - 1] + [words[|words| - 1]];
          MarksExtend(words[..|words| - 1], words[|words| - 1], last);
        }
      }
    }
  }

  lemma MarksSnoc(words: seq<Text>, unit: CodeUnit)
    ensures MarksOf(words + [[unit]]) == MarksOf(words) + [true]
  {
    assert WordMarks(1) == [true];
    assert (words + [[unit]])[..|words|] == words;
  }

  lemma MarksExtend(front: seq<Text>, last: Text, unit: CodeUnit)
    requires last != []
    ensures MarksOf(Extend(front + [last], unit)) == MarksOf(front + [last]) + [false]
  {
    ExtendLast(front, last, unit);
    LastMarks(front, last);
    LastMarks(front, last + [unit]);
    assert WordMarks(|last| + 1) == WordMarks(|last|) + [false];
  }

  lemma LastMarks(front: seq<Text>, last: Text)
    ensures MarksOf(front + [last]) == MarksOf(front) + WordMarks(|last|)
  {
    assert (front + [last])[..|front|] == front;
  }

  lemma CountAppend(marks: seq<bool>, mark: bool)
    ensures Count(marks + [mark]) == Count(marks) + if mark then 1 else 0
  {
    assert (marks + [mark])[..|marks|] == marks;
  }

  /** Reading on adds to the joined words what it adds to the spaced length. */
  lemma {:induction false} JoinedLength(text: Text)
    ensures |Join(Words(text))| == SpacedLength(text)
    ensures Join(Words(text)) == [] <==> Visible(text) == []
  {
    if text != [] {
      var n := |text| - 1;
      JoinedLength(text[..n]);
      assert text[..n + 1] == text;
      Read(text, n);
      LengthRead(text);
    }
  }

  lemma LengthRead(text: Text)
    requires text != []
    ensures var n := |text| - 1;
            var before := SpacedLength(text[..n]);
            SpacedLength(text) == if Gap(text[n]) then before
                                  else if Visible(text[..n]) == [] then 1
                                  else if Gap(text[n - 1]) then before + 2
                                  else before + 1
  {
    var n := |text| - 1;
    CountAppend(Marks(text[..n]), Begins(text, n));
    FirstVisible(text, n);
    assert Visible(text[..n]) + [] == Visible(text[..n]) && Marks(text[..n]) + [] == Marks(text[..n]);
  }

  /** The first visible character begins a word. */
  lemma {:induction false} FirstVisible(text: Text, n: nat)
    requires n <= |text|
    ensures Visible(text[..n]) == [] <==> forall i :: 0 <= i < n ==> Gap(text[i])
    ensures Visible(text[..n]) == [] ==> Marks(text[..n]) == []
    decreases n
  {
    if n > 0 {
      assert text[..n][..n - 1] == text[..n - 1];
      FirstVisible(text, n - 1);
    }
  }

  /**
   A text is refused as too long exactly if its visible characters, with one space between words, are more than allowed,
   and otherwise as invisible exactly if it holds gaps only.
   */
  lemma NormalizedAnswers(text: Text, maximum: nat)
    ensures Normalized(text, maximum) == Failure(TooLong) <==> SpacedLength(text) > maximum
    ensures Normalized(text, maximum) == Failure(Invisible) <==> forall i :: 0 <= i < |text| ==> Gap(text[i])
    ensures Normalized(text, maximum).Failure? ==> Normalized(text, maximum).error in {TooLong, Invisible}
  {
    JoinedLength(text);
    FirstVisible(text, |text|);
    assert text[..|text|] == text;
  }

  /** An accepted text keeps its visible characters and where words begin; its gaps are single spaces inside. */
  lemma NormalizedWords(text: Text, maximum: nat)
    requires Normalized(text, maximum).Success?
    ensures var r := Normalized(text, maximum).value;
            && Visible(r) == Visible(text) && Marks(r) == Marks(text)
            && |r| == SpacedLength(text) <= maximum
            && forall i :: 0 <= i < |r| && Gap(r[i]) ==> r[i] == SPACE && 0 < i < |r| - 1 && !Gap(r[i + 1])
  {
    var words := Words(text);
    NormalizedStable(text, maximum);
    WordsProper(text);
    WordsOfJoin(words);
    MarksOfWords(text);
    MarksOfWords(Join(words));
    JoinedLength(text);
    InnerGaps(words);
  }

  lemma {:induction false} InnerGaps(words: seq<Text>)
    requires Proper(words)
    ensures var r := Join(words);
            forall i :: 0 <= i < |r| && Gap(r[i]) ==> r[i] == SPACE && 0 < i < |r| - 1 && !Gap(r[i + 1])
  {
    if |words| > 1 {
      var front := words[..|words| - 1];
      InnerGaps(front);
      JoinEnds(front);
    }
  }
}
