/** Line framing over arbitrary chunks (apps/runtime-host/src/main.ts, apps/desktop/src/runtime-host-client.ts). */
module PipeFraming {
  import opened Results
  import opened ControlProtocol
  import opened Sequences

  const MAX_BUFFER_BYTES: nat := 2 * MAX_LINE_BYTES

  /** The first newline at or after `from`. */
  function NewlineFrom(s: string, from: nat): (i: Option<nat>)
    requires from <= |s|
    ensures i.Some? ==> from <= i.value < |s| && s[i.value] == '\n'
    ensures forall k :: from <= k < (if i.Some? then i.value else |s|) ==> s[k] != '\n'
    decreases |s| - from
  {
    if from == |s| then None else if s[from] == '\n' then Some(from) else NewlineFrom(s, from + 1)
  }

  /** A line without the one carriage return that may end it. */
  function Chomp(line: string): string {
    if line != "" && line[|line| - 1] == '\r' then line[..|line| - 1] else line
  }

  /** What draining a buffer delivers, what it leaves, and whether a line was refused. */
  datatype Drained = Drained(delivered: seq<Message>, rest: string, refused: bool)

  /** A line is skipped when empty, refused when it does not parse, and otherwise handled. */
  datatype Verdict = Blank | Refused | Good(message: Message)

  function Classify(c: Codec, session: string, line: string): Verdict {
    if line == "" then Blank
    else match Parse(c, session, line)
      case None => Refused
      case Some(m) => Good(m)
  }

  /** A refused line ends the draining with the rest of the buffer untouched. */
  function Prepend(v: Verdict, rest: string, d: Drained): Drained {
    match v
    case Blank => d
    case Refused => Drained([], rest, true)
    case Good(m) => Drained([m] + d.delivered, d.rest, d.refused)
  }

  function Drain(c: Codec, session: string, buffer: string): Drained
    decreases |buffer|
  {
    var newline := NewlineFrom(buffer, 0);
    if newline.None? then Drained([], buffer, false)
    else
      var rest := buffer[newline.value + 1..];
      Prepend(Classify(c, session, Chomp(buffer[..newline.value])), rest, Drain(c, session, rest))
  }

  /** One end of the pipe: the buffer, whether it failed, and everything delivered so far. */
  datatype Pipe = Pipe(buffer: string, failed: bool, delivered: seq<Message>)

  function Accept(c: Codec, session: string, p: Pipe, chunk: string): Pipe {
    if p.failed then p
    else if ByteLength(p.buffer + chunk) > MAX_BUFFER_BYTES then p.(buffer := p.buffer + chunk, failed := true)
    else
      var d := Drain(c, session, p.buffer + chunk);
      Pipe(d.rest, d.refused, p.delivered + d.delivered)
  }

  function AcceptAll(c: Codec, session: string, p: Pipe, chunks: seq<string>): Pipe {
    if chunks == [] then p
    else Accept(c, session, AcceptAll(c, session, p, chunks[..|chunks| - 1]), chunks[|chunks| - 1])
  }

  function Concat(chunks: seq<string>): string {
    if chunks == [] then "" else Concat(chunks[..|chunks| - 1]) + chunks[|chunks| - 1]
  }

  const FRESH_PIPE := Pipe("", false, [])

  // --- draining does not depend on where the text is cut ---

  /** Draining `x` and then, unless that refused a line, its rest with more text, amounts to `xy`. */
  predicate Continues(x: Drained, y: Drained, xy: Drained) {
    if x.refused then xy.refused && xy.delivered == x.delivered
    else xy == Drained(x.delivered + y.delivered, y.rest, y.refused)
  }

  lemma PrependContinues(v: Verdict, rest: string, more: string, x: Drained, y: Drained, xy: Drained)
    requires Continues(x, y, xy)
    ensures Continues(Prepend(v, rest, x), y, Prepend(v, rest + more, xy))
  {
  }

  /** A text whose first newline is known by what stands around it. */
  lemma FirstNewline(line: string, tail: string)
    requires '\n' !in line
    ensures NewlineFrom(line + (['\n'] + tail), 0) == Some(|line|)
  {
    var text := line + (['\n'] + tail);
    PartsAround(line, '\n', tail);
    assert forall k :: 0 <= k < |line| ==> text[k] == line[k] && line[k] in line;
    var i := NewlineFrom(text, 0);
  }

  lemma DrainLine(c: Codec, session: string, text: string, line: string, tail: string)
    requires text == line + (['\n'] + tail) && '\n' !in line
    ensures Drain(c, session, text) == Prepend(Classify(c, session, Chomp(line)), tail, Drain(c, session, tail))
  {
    FirstNewline(line, tail);
    PartsAround(line, '\n', tail);
  }

  lemma {:induction false} DrainConcat(c: Codec, session: string, a: string, b: string)
    ensures var x := Drain(c, session, a);
            Continues(x, Drain(c, session, x.rest + b), Drain(c, session, a + b))
    decreases |a|
  {
    var newline := NewlineFrom(a, 0);
    if newline.Some? {
      var line, tail := a[..newline.value], a[newline.value + 1..];
      CutAround(a, newline.value);
      DrainLine(c, session, a, line, tail);
      Shifted(line, tail, b);
      DrainLine(c, session, a + b, line, tail + b);
      DrainConcat(c, session, tail, b);
      var x := Drain(c, session, tail);
      PrependContinues(Classify(c, session, Chomp(line)), tail, b, x, Drain(c, session, x.rest + b),
                       Drain(c, session, tail + b));
    }
  }

  lemma Shifted(line: string, tail: string, more: string)
    ensures line + (['\n'] + tail) + more == line + (['\n'] + (tail + more))
  {}

  /** Whether the buffer check fires while the chunks arrive. */
  predicate Overflows(c: Codec, session: string, chunks: seq<string>) {
    chunks != [] &&
    var before := AcceptAll(c, session, FRESH_PIPE, chunks[..|chunks| - 1]);
    || Overflows(c, session, chunks[..|chunks| - 1])
    || (!before.failed && ByteLength(before.buffer + chunks[|chunks| - 1]) > MAX_BUFFER_BYTES)
  }

  /** Without an overflow the pipe is in the state draining the whole text at once leads to. */
  lemma {:induction false} ChunksDrain(c: Codec, session: string, chunks: seq<string>)
    requires !Overflows(c, session, chunks)
    ensures var p, d := AcceptAll(c, session, FRESH_PIPE, chunks), Drain(c, session, Concat(chunks));
            p.delivered == d.delivered && p.failed == d.refused && (!p.failed ==> p.buffer == d.rest)
  {
    if chunks != [] {
      var init, last := chunks[..|chunks| - 1], chunks[|chunks| - 1];
      ChunksDrain(c, session, init);
      DrainConcat(c, session, Concat(init), last);
    }
  }

  /**
   Chunking is immaterial: two ways of cutting the same text that both avoid the bound deliver the same
   messages, fail alike, and otherwise leave the same residual buffer.
   */
  lemma ChunkingImmaterial(c: Codec, session: string, a: seq<string>, b: seq<string>)
    requires Concat(a) == Concat(b) && !Overflows(c, session, a) && !Overflows(c, session, b)
    ensures var p, q := AcceptAll(c, session, FRESH_PIPE, a), AcceptAll(c, session, FRESH_PIPE, b);
            p.delivered == q.delivered && p.failed == q.failed && (!p.failed ==> p == q)
  {
    ChunksDrain(c, session, a);
    ChunksDrain(c, session, b);
  }

  // --- what the serializer writes is delivered ---

  predicate Sendable(c: Codec, session: string, ms: seq<Message>) {
    forall i :: 0 <= i < |ms| ==> WellFormed(ms[i]) && Serialize(c, session, ms[i]).Some?
  }

  function Stream(c: Codec, session: string, ms: seq<Message>): string
    decreases |ms|
  {
    if ms == [] then "" else Line(c, session, ms[0]) + "\n" + Stream(c, session, ms[1..])
  }

  lemma NoNewline(s: string)
    requires '\n' !in s
    ensures NewlineFrom(s, 0).None?
  {
    assert forall k :: 0 <= k < |s| ==> s[k] in s;
  }

  lemma FirstLine(c: Codec, session: string, m: Message, rest: string)
    requires Lawful(c)
    ensures var line := Line(c, session, m);
            NewlineFrom(line + "\n" + rest, 0) == Some(|line|) && Chomp(line) == line && line != ""
  {
    var line := Line(c, session, m);
    var s := line + "\n" + rest;
    var r := ToRecord(session, m);
    assert c.parse(c.render(r)) == Some(JsonRecord(r)) && '\n' !in line;
    assert s[|line|] == '\n';
    assert forall k :: 0 <= k < |line| ==> s[k] == line[k] && line[k] in line;
    var i := NewlineFrom(s, 0);
    assert i.Some?;
  }

  /** Drained without refusal to an initial run of the messages and part of one line; the whole text to all of them. */
  predicate DrainsTo(d: Drained, ms: seq<Message>, whole: bool) {
    && !d.refused && d.delivered <= ms && ByteLength(d.rest) <= MAX_LINE_BYTES
    && (whole ==> d.delivered == ms && d.rest == "")
  }

  lemma DrainsNext(m: Message, ms: seq<Message>, d: Drained, whole: bool)
    requires DrainsTo(d, ms, whole)
    ensures DrainsTo(Drained([m] + d.delivered, d.rest, d.refused), [m] + ms, whole)
  {}

  lemma ShortDrains(c: Codec, session: string, m: Message, ms: seq<Message>, after: string, text: string)
    requires Lawful(c) && Serialize(c, session, m).Some?
    requires text <= Line(c, session, m) + "\n" + after && |text| <= |Line(c, session, m)|
    ensures DrainsTo(Drain(c, session, text), [m] + ms, false)
  {
    PrefixShort(c, session, m, after, text);
  }

  lemma LongDrains(c: Codec, session: string, m: Message, ms: seq<Message>, tail: string, text: string, whole: bool)
    requires Lawful(c) && WellFormed(m) && Serialize(c, session, m).Some?
    requires text == Line(c, session, m) + "\n" + tail && DrainsTo(Drain(c, session, tail), ms, whole)
    ensures DrainsTo(Drain(c, session, text), [m] + ms, whole)
  {
    FirstDelivered(c, session, m, tail, text);
    DrainsNext(m, ms, Drain(c, session, tail), whole);
  }

  /**
   Any prefix of a written stream drains without refusal, delivers an initial run of the messages, and
   leaves part of one line, at most the line limit long.
   */
  lemma {:induction false} PrefixDrains(c: Codec, session: string, ms: seq<Message>, text: string)
    requires Lawful(c) && Sendable(c, session, ms) && text <= Stream(c, session, ms)
    ensures DrainsTo(Drain(c, session, text), ms, text == Stream(c, session, ms))
    decreases |ms|
  {
    if ms == [] {
      NothingDrains(c, session, text);
    } else {
      var m, rest := ms[0], ms[1..];
      assert ms == [m] + rest;
      var line, after := Line(c, session, m), Stream(c, session, rest);
      if |text| <= |line| {
        ShortDrains(c, session, m, rest, after, text);
      } else {
        PrefixPast(text, line, '\n', after);
        var tail := text[|line| + 1..];
        PrefixDrains(c, session, rest, tail);
        LongDrains(c, session, m, rest, tail, text, tail == after);
      }
    }
  }

  lemma NothingDrains(c: Codec, session: string, text: string)
    requires text == ""
    ensures Drain(c, session, text) == Drained([], "", false) && ByteLength(text) == 0
  {}

  lemma PrefixShort(c: Codec, session: string, m: Message, after: string, text: string)
    requires Lawful(c) && Serialize(c, session, m).Some?
    requires text <= Line(c, session, m) + "\n" + after && |text| <= |Line(c, session, m)|
    ensures Drain(c, session, text) == Drained([], text, false) && ByteLength(text) <= MAX_LINE_BYTES
    ensures NewlineFrom(text, 0).None?
  {
    var line := Line(c, session, m);
    Associates(line, "\n", after);
    PrefixWithin(text, line, "\n" + after);
    var r := ToRecord(session, m);
    assert c.parse(c.render(r)) == Some(JsonRecord(r)) && '\n' !in line;
    assert forall k :: 0 <= k < |text| ==> text[k] == line[k] && line[k] in line;
    NoNewline(text);
    ByteLengthPrefix(text, line);
  }

  lemma FirstDelivered(c: Codec, session: string, m: Message, tail: string, text: string)
    requires Lawful(c) && WellFormed(m) && Serialize(c, session, m).Some?
    requires text == Line(c, session, m) + "\n" + tail
    ensures var d := Drain(c, session, tail);
            Drain(c, session, text) == Drained([m] + d.delivered, d.rest, d.refused)
  {
    var line := Line(c, session, m);
    FirstLine(c, session, m, tail);
    CutInFirst(line, "\n" + tail, |line|);
    Associates(line, "\n", tail);
    CutInFirst(line + "\n", tail, |line| + 1);
    RoundTrip(c, session, m);
  }

  lemma {:induction false} NeverOverflows(c: Codec, session: string, ms: seq<Message>, chunks: seq<string>)
    requires Lawful(c) && Sendable(c, session, ms) && Concat(chunks) <= Stream(c, session, ms)
    requires forall i :: 0 <= i < |chunks| ==> ByteLength(chunks[i]) <= MAX_LINE_BYTES
    ensures !Overflows(c, session, chunks)
  {
    if chunks != [] {
      var init, last := chunks[..|chunks| - 1], chunks[|chunks| - 1];
      NeverOverflows(c, session, ms, init);
      ChunksDrain(c, session, init);
      PrefixDrains(c, session, ms, Concat(init));
      ByteLengthConcat(AcceptAll(c, session, FRESH_PIPE, init).buffer, last);
    }
  }

  /**
   Framing: messages written by the serializer and cut into chunks of at most one line limit in any way
   are delivered intact and in order, the buffer check never fires, and nothing is left over.
   */
  lemma DeliveredIntact(c: Codec, session: string, ms: seq<Message>, chunks: seq<string>)
    requires Lawful(c) && Sendable(c, session, ms) && Concat(chunks) == Stream(c, session, ms)
    requires forall i :: 0 <= i < |chunks| ==> ByteLength(chunks[i]) <= MAX_LINE_BYTES
    ensures AcceptAll(c, session, FRESH_PIPE, chunks) == Pipe("", false, ms)
  {
    NeverOverflows(c, session, ms, chunks);
    ChunksDrain(c, session, chunks);
    PrefixDrains(c, session, ms, Concat(chunks));
  }

  /**
   The chunk limit is tight: after a chunk that is one full line without its newline, a chunk one byte
   over the limit closes the pipe although every byte was written by the serializer.
   */
  lemma ChunkLimitTight(c: Codec, session: string, ms: seq<Message>, chunk: string, more: string)
    requires Lawful(c) && Sendable(c, session, ms) && ms != []
    requires ByteLength(Line(c, session, ms[0])) == MAX_LINE_BYTES
    requires Line(c, session, ms[0]) + chunk + more == Stream(c, session, ms)
    requires ByteLength(chunk) == MAX_LINE_BYTES + 1
    ensures AcceptAll(c, session, FRESH_PIPE, [Line(c, session, ms[0]), chunk]).failed
  {
    var line := Line(c, session, ms[0]);
    FirstLine(c, session, ms[0], "");
    assert '\n' !in line by {
      assert c.parse(c.render(ToRecord(session, ms[0]))) == Some(JsonRecord(ToRecord(session, ms[0])));
    }
    NoNewline(line);
    var chunks := [line, chunk];
    assert chunks[..1] == [line] && [line][..0] == [];
    assert "" + line == line;
    assert AcceptAll(c, session, FRESH_PIPE, [line]) == Accept(c, session, FRESH_PIPE, line) == Pipe(line, false, []);
    ByteLengthConcat(line, chunk);
  }
}
