/**
 The desktop's end of the control pipe (apps/desktop/src/runtime-host-client.ts).  Unlike the host's it has
 no closed flag: a failure stops the chunk at hand, leaves the rest of it in the buffer, and the next chunk
 is read on from there.
 */
module DesktopFraming {
  import opened Results
  import opened Sequences
  import opened ControlProtocol
  import opened PipeFraming

  /** What decides about a line: JSON, the session secret, and the check of an event's payload. */
  datatype Reader = Reader(codec: Codec, session: string, valid: Message -> bool)

  /** `failures` counts the calls of the failure handler. */
  datatype Client = Client(buffer: string, lastEventSequence: int, delivered: seq<Message>, failures: nat)

  const FRESH_CLIENT := Client("", 0, [], 0)

  function Fail(c: Client): Client { c.(failures := c.failures + 1) }

  /** An event must exceed the last number, and its number counts even when its payload is then refused. */
  function HandleMessage(r: Reader, c: Client, m: Message): (Client, bool) {
    if m.EventMessage? && m.sequence <= c.lastEventSequence then (Fail(c), false)
    else
      var numbered := if m.EventMessage? then c.(lastEventSequence := m.sequence) else c;
      if m.EventMessage? && !r.valid(m) then (Fail(numbered), false)
      else (numbered.(delivered := c.delivered + [m]), true)
  }

  /** Whether the line was taken, and the client after it. */
  function HandleLine(r: Reader, c: Client, line: string): (Client, bool) {
    if line == "" then (c, true)
    else match Parse(r.codec, r.session, line)
      case None => (Fail(c), false)
      case Some(m) => HandleMessage(r, c, m)
  }

  /** The line loop: up to the first line that is refused, or through the last complete line. */
  function DrainLines(r: Reader, c: Client): Client
    decreases |c.buffer|
  {
    var newline := NewlineFrom(c.buffer, 0);
    if newline.None? then c
    else
      var line, rest := Chomp(c.buffer[..newline.value]), c.buffer[newline.value + 1..];
      var (next, taken) := HandleLine(r, c.(buffer := rest), line);
      if taken then DrainLines(r, next) else next
  }

  function Append(c: Client, text: string): Client { c.(buffer := c.buffer + text) }

  predicate OverBound(c: Client) { ByteLength(c.buffer) > MAX_BUFFER_BYTES }

  function AcceptChunk(r: Reader, c: Client, chunk: string): Client {
    var more := Append(c, chunk);
    if OverBound(more) then Fail(more) else DrainLines(r, more)
  }

  function AcceptChunks(r: Reader, c: Client, chunks: seq<string>): Client {
    if chunks == [] then c
    else AcceptChunk(r, AcceptChunks(r, c, chunks[..|chunks| - 1]), chunks[|chunks| - 1])
  }

  /** The buffer check never fires while the chunks arrive. */
  predicate InBound(r: Reader, c: Client, chunks: seq<string>) {
    chunks == [] ||
    (&& InBound(r, c, chunks[..|chunks| - 1])
     && !OverBound(Append(AcceptChunks(r, c, chunks[..|chunks| - 1]), chunks[|chunks| - 1])))
  }

  // --- draining and more text ---

  predicate Refuses(r: Reader, c: Client) { DrainLines(r, c).failures > c.failures }

  lemma HandleLineIgnoresBuffer(r: Reader, c: Client, line: string, text: string)
    ensures HandleLine(r, Append(c, text), line)
            == (Append(HandleLine(r, c, line).0, text), HandleLine(r, c, line).1)
    ensures HandleLine(r, c, line).0.buffer == c.buffer
    ensures HandleLine(r, c, line).0.failures == c.failures + if HandleLine(r, c, line).1 then 0 else 1
  {}

  lemma DrainFirst(r: Reader, c: Client, line: string, tail: string)
    requires c.buffer == line + (['\n'] + tail) && '\n' !in line
    ensures var (next, taken) := HandleLine(r, c.(buffer := tail), Chomp(line));
            DrainLines(r, c) == if taken then DrainLines(r, next) else next
  {
    FirstNewline(line, tail);
    PartsAround(line, '\n', tail);
  }

  /** A drain that is refused a line does not look at what stands behind it; one that is not goes on with more text. */
  lemma {:induction false} DrainAppend(r: Reader, c: Client, text: string)
    ensures Refuses(r, c) ==> DrainLines(r, Append(c, text)) == Append(DrainLines(r, c), text)
    ensures !Refuses(r, c) ==> DrainLines(r, Append(c, text)) == DrainLines(r, Append(DrainLines(r, c), text))
    ensures c.failures <= DrainLines(r, c).failures <= c.failures + 1
    ensures !Refuses(r, c) ==> NewlineFrom(DrainLines(r, c).buffer, 0).None?
    decreases |c.buffer|
  {
    var newline := NewlineFrom(c.buffer, 0);
    if newline.Some? {
      var line, tail := c.buffer[..newline.value], c.buffer[newline.value + 1..];
      CutAround(c.buffer, newline.value);
      var rest := c.(buffer := tail);
      HandleLineIgnoresBuffer(r, rest, Chomp(line), text);
      DrainFirst(r, c, line, tail);
      Shifted(line, tail, text);
      DrainFirst(r, Append(c, text), line, tail + text);
      assert Append(c, text).(buffer := tail + text) == Append(rest, text);
      var (next, taken) := HandleLine(r, rest, Chomp(line));
      if taken { DrainAppend(r, next, text); }
    }
  }

  lemma DrainedStays(r: Reader, c: Client)
    requires NewlineFrom(c.buffer, 0).None?
    ensures DrainLines(r, c) == c
  {}

  // --- chunks ---

  function Turns(r: Reader, c: Client, n: nat): Client {
    if n == 0 then c else DrainLines(r, Turns(r, c, n - 1))
  }

  /** The last chunk ended at a refused line. */
  predicate CutShort(r: Reader, c: Client, chunks: seq<string>) {
    chunks != [] && Refuses(r, Append(AcceptChunks(r, c, chunks[..|chunks| - 1]), chunks[|chunks| - 1]))
  }

  /** How many chunks ended at a refused line. */
  function Refusals(r: Reader, c: Client, chunks: seq<string>): nat {
    if chunks == [] then 0
    else Refusals(r, c, chunks[..|chunks| - 1]) + if CutShort(r, c, chunks) then 1 else 0
  }

  /** How often the whole text would have to be drained to get as far as the chunks do. */
  function Stops(r: Reader, c: Client, chunks: seq<string>): nat {
    if chunks == [] then 0 else Refusals(r, c, chunks[..|chunks| - 1]) + 1
  }

  predicate NothingComplete(c: Client) { NewlineFrom(c.buffer, 0).None? }

  lemma AppendTwice(c: Client, a: string, b: string)
    ensures Append(Append(c, a), b) == Append(c, a + b)
  {
    Associates(c.buffer, a, b);
  }

  lemma LastChunk(r: Reader, c: Client, chunks: seq<string>)
    requires chunks != [] && InBound(r, c, chunks)
    ensures var y := Append(AcceptChunks(r, c, chunks[..|chunks| - 1]), chunks[|chunks| - 1]);
            AcceptChunks(r, c, chunks) == DrainLines(r, y) && (CutShort(r, c, chunks) <==> Refuses(r, y))
  {}

  lemma OneMoreChunk(r: Reader, c: Client, x: string, tail: string)
    ensures var next := DrainLines(r, Append(c, x));
            DrainLines(r, Append(c, x + tail))
            == if Refuses(r, Append(c, x)) then Append(next, tail) else DrainLines(r, Append(next, tail))
  {
    AppendTwice(c, x, tail);
    DrainAppend(r, Append(c, x), tail);
  }

  lemma OneTurn(r: Reader, c: Client)
    ensures Turns(r, c, 1) == DrainLines(r, c)
  {
    assert Turns(r, c, 0) == c;
  }

  /** Reading `tail` from here is going on with the whole text after `n` turns; a turn cut short left it there. */
  predicate GotTo(r: Reader, whole: Client, here: Client, tail: string, n: nat, cut: bool) {
    && DrainLines(r, Append(here, tail)) == Turns(r, whole, n + 1)
    && (cut ==> Append(here, tail) == Turns(r, whole, n))
  }

  lemma GotFurther(r: Reader, whole: Client, here: Client, x: string, tail: string, n: nat, was: bool)
    requires GotTo(r, whole, here, x + tail, n, was)
    ensures var cut := Refuses(r, Append(here, x));
            GotTo(r, whole, DrainLines(r, Append(here, x)), tail, n + if cut then 1 else 0, cut)
  {
    OneMoreChunk(r, here, x, tail);
  }

  lemma NoneRead(r: Reader, c: Client, tail: string)
    ensures GotTo(r, Append(c, Concat([]) + tail), AcceptChunks(r, c, []), tail, Refusals(r, c, []), CutShort(r, c, []))
  {
    assert Concat([]) + tail == tail;
    OneTurn(r, Append(c, tail));
  }

  /** The chunk functions, unfolded at the last chunk. */
  lemma AtLast(r: Reader, c: Client, init: seq<string>, x: string)
    ensures var y := Append(AcceptChunks(r, c, init), x);
            && Concat(init + [x]) == Concat(init) + x
            && (CutShort(r, c, init + [x]) <==> Refuses(r, y))
            && Refusals(r, c, init + [x]) == Refusals(r, c, init) + (if Refuses(r, y) then 1 else 0)
            && (InBound(r, c, init + [x]) ==> InBound(r, c, init) && AcceptChunks(r, c, init + [x]) == DrainLines(r, y))
  {
    assert (init + [x])[..|init|] == init;
  }

  lemma OneChunkFurther(r: Reader, c: Client, init: seq<string>, x: string, tail: string)
    requires InBound(r, c, init + [x])
    requires GotTo(r, Append(c, Concat(init) + (x + tail)), AcceptChunks(r, c, init), x + tail, Refusals(r, c, init),
                   CutShort(r, c, init))
    ensures GotTo(r, Append(c, Concat(init + [x]) + tail), AcceptChunks(r, c, init + [x]), tail,
                  Refusals(r, c, init + [x]), CutShort(r, c, init + [x]))
  {
    AtLast(r, c, init, x);
    Associates(Concat(init), x, tail);
    GotFurther(r, Append(c, Concat(init) + (x + tail)), AcceptChunks(r, c, init), x, tail, Refusals(r, c, init),
               CutShort(r, c, init));
  }

  /** Wherever the chunks stopped, going on with more text is going on with the whole text from there. */
  lemma {:induction false} ChunksTurn(r: Reader, c: Client, chunks: seq<string>, tail: string)
    requires InBound(r, c, chunks)
    ensures GotTo(r, Append(c, Concat(chunks) + tail), AcceptChunks(r, c, chunks), tail, Refusals(r, c, chunks),
                  CutShort(r, c, chunks))
    decreases |chunks|
  {
    if chunks == [] {
      NoneRead(r, c, tail);
    } else {
      var init, x := chunks[..|chunks| - 1], chunks[|chunks| - 1];
      assert chunks == init + [x];
      AtLast(r, c, init, x);
      ChunksTurn(r, c, init, x + tail);
      OneChunkFurther(r, c, init, x, tail);
    }
  }

  lemma NoTail(c: Client, text: string)
    ensures Append(c, "") == c && Append(c, text + "") == Append(c, text)
  {
    assert c.buffer + "" == c.buffer && text + "" == text;
  }

  lemma LastSettled(r: Reader, c: Client, chunks: seq<string>)
    requires InBound(r, c, chunks) && NothingComplete(c) && !CutShort(r, c, chunks)
    ensures NothingComplete(AcceptChunks(r, c, chunks))
  {
    if chunks != [] {
      LastChunk(r, c, chunks);
      DrainAppend(r, Append(AcceptChunks(r, c, chunks[..|chunks| - 1]), chunks[|chunks| - 1]), "");
    }
  }

  /**
   What chunks within the bound leave is what draining their whole text leaves, as often as the chunks before
   the last were stopped by a refused line, and once more.
   */
  lemma ChunksAreTurns(r: Reader, c: Client, chunks: seq<string>)
    requires InBound(r, c, chunks) && NothingComplete(c)
    ensures AcceptChunks(r, c, chunks) == Turns(r, Append(c, Concat(chunks)), Stops(r, c, chunks))
  {
    if chunks == [] {
      NoChunks(r, c);
    } else {
      ChunksRead(r, c, chunks);
      StopsCounted(r, c, chunks);
      if !CutShort(r, c, chunks) { LastSettled(r, c, chunks); }
      Arrived(r, Append(c, Concat(chunks)), AcceptChunks(r, c, chunks), Refusals(r, c, chunks), CutShort(r, c, chunks),
              Stops(r, c, chunks));
    }
  }

  lemma NoChunks(r: Reader, c: Client)
    ensures AcceptChunks(r, c, []) == Turns(r, Append(c, Concat([])), Stops(r, c, []))
  {
    NoTail(c, "");
  }

  lemma ChunksRead(r: Reader, c: Client, chunks: seq<string>)
    requires InBound(r, c, chunks)
    ensures GotTo(r, Append(c, Concat(chunks)), AcceptChunks(r, c, chunks), "", Refusals(r, c, chunks),
                  CutShort(r, c, chunks))
  {
    ChunksTurn(r, c, chunks, "");
    NoTail(c, Concat(chunks));
  }

  lemma StopsCounted(r: Reader, c: Client, chunks: seq<string>)
    requires chunks != []
    ensures Stops(r, c, chunks) == Refusals(r, c, chunks) + if CutShort(r, c, chunks) then 0 else 1
  {}

  lemma Arrived(r: Reader, whole: Client, here: Client, n: nat, cut: bool, stops: nat)
    requires GotTo(r, whole, here, "", n, cut) && (!cut ==> NothingComplete(here))
    requires stops == n + if cut then 0 else 1
    ensures here == Turns(r, whole, stops)
  {
    NoTail(here, "");
    if !cut { DrainedStays(r, here); }
  }

  // --- when two chunkings agree ---

  lemma {:induction false} DrainShortens(r: Reader, c: Client)
    ensures |DrainLines(r, c).buffer| <= |c.buffer|
    ensures |DrainLines(r, c).buffer| == |c.buffer| <==> NothingComplete(c)
    decreases |c.buffer|
  {
    var newline := NewlineFrom(c.buffer, 0);
    if newline.Some? {
      var line, tail := c.buffer[..newline.value], c.buffer[newline.value + 1..];
      CutAround(c.buffer, newline.value);
      DrainFirst(r, c, line, tail);
      var (next, taken) := HandleLine(r, c.(buffer := tail), Chomp(line));
      HandleLineIgnoresBuffer(r, c.(buffer := tail), Chomp(line), "");
      if taken { DrainShortens(r, next); }
    }
  }

  /** One state reached from another by draining: shorter, or the same and with nothing complete to drain. */
  predicate Later(x: Client, y: Client) {
    && |y.buffer| <= |x.buffer|
    && (|y.buffer| == |x.buffer| ==> NothingComplete(x))
    && (NothingComplete(x) ==> y == x)
  }

  lemma LaterTransitive(x: Client, y: Client, z: Client)
    requires Later(x, y) && Later(y, z)
    ensures Later(x, z)
  {}

  lemma OnceMore(r: Reader, c: Client)
    ensures Later(c, DrainLines(r, c))
  {
    DrainShortens(r, c);
    if NothingComplete(c) { DrainedStays(r, c); }
  }

  function Iterate(step: Client -> Client, c: Client, n: nat): Client {
    if n == 0 then c else step(Iterate(step, c, n - 1))
  }

  lemma {:induction false} IterateSettles(step: Client -> Client, c: Client, n: nat, m: nat)
    requires n < m
    requires forall x: Client :: Later(x, step(x))
    ensures Later(Iterate(step, c, n), Iterate(step, c, m))
    decreases m
  {
    var before := Iterate(step, c, m - 1);
    if n < m - 1 {
      IterateSettles(step, c, n, m - 1);
      LaterTransitive(Iterate(step, c, n), before, step(before));
    }
  }

  function Drainer(r: Reader): Client -> Client { (c: Client) => DrainLines(r, c) }

  lemma {:induction false} TurnsIterate(r: Reader, c: Client, n: nat)
    ensures Turns(r, c, n) == Iterate(Drainer(r), c, n)
  {
    if n > 0 {
      TurnsIterate(r, c, n - 1);
      DrainerTurns(r, Turns(r, c, n - 1), Iterate(Drainer(r), c, n - 1));
    }
  }

  lemma DrainerTurns(r: Reader, x: Client, y: Client)
    requires x == y
    ensures DrainLines(r, x) == Drainer(r)(y)
  {}

  /** Draining again changes nothing exactly when no complete line is left; and a change is never undone. */
  lemma TurnsSettle(r: Reader, c: Client, n: nat, m: nat)
    requires n < m
    ensures Later(Turns(r, c, n), Turns(r, c, m))
  {
    forall x: Client ensures Later(x, Drainer(r)(x)) { OnceMore(r, x); }
    TurnsIterate(r, c, n);
    TurnsIterate(r, c, m);
    IterateSettles(Drainer(r), c, n, m);
  }

  /**
   Two ways of cutting the same text, both within the bound, leave the desktop alike if and only if they were
   stopped equally often before their last chunk, or the one stopped less often has no complete line left.
   */
  lemma ChunkingsAgree(r: Reader, c: Client, a: seq<string>, b: seq<string>)
    requires InBound(r, c, a) && InBound(r, c, b) && NothingComplete(c) && Concat(a) == Concat(b)
    ensures var few := if Stops(r, c, a) <= Stops(r, c, b) then a else b;
            AcceptChunks(r, c, a) == AcceptChunks(r, c, b)
            <==> Stops(r, c, a) == Stops(r, c, b) || NothingComplete(AcceptChunks(r, c, few))
  {
    var whole := Append(c, Concat(a));
    ChunksAreTurns(r, c, a);
    ChunksAreTurns(r, c, b);
    if Stops(r, c, a) < Stops(r, c, b) { TurnsSettle(r, whole, Stops(r, c, a), Stops(r, c, b)); }
    if Stops(r, c, b) < Stops(r, c, a) { TurnsSettle(r, whole, Stops(r, c, b), Stops(r, c, a)); }
  }

  lemma {:induction false} RefusalsCounted(r: Reader, c: Client, chunks: seq<string>)
    requires InBound(r, c, chunks)
    ensures AcceptChunks(r, c, chunks).failures == c.failures + Refusals(r, c, chunks)
  {
    if chunks != [] {
      var init := chunks[..|chunks| - 1];
      RefusalsCounted(r, c, init);
      LastChunk(r, c, chunks);
      DrainAppend(r, Append(AcceptChunks(r, c, init), chunks[|chunks| - 1]), "");
    }
  }

  /** Some chunk is stopped by a refused line exactly when draining their whole text at once is. */
  lemma RefusalSeen(r: Reader, c: Client, chunks: seq<string>)
    requires InBound(r, c, chunks) && NothingComplete(c)
    ensures Refusals(r, c, chunks) > 0 <==> Refuses(r, Append(c, Concat(chunks)))
  {
    var whole := Append(c, Concat(chunks));
    RefusalsCounted(r, c, chunks);
    ChunksAreTurns(r, c, chunks);
    DrainAppend(r, whole, "");
    OneTurn(r, whole);
    if chunks == [] {
      NoTail(c, "");
      DrainedStays(r, c);
    } else if !Refuses(r, whole) && Stops(r, c, chunks) > 1 {
      TurnsSettle(r, whole, 1, Stops(r, c, chunks));
    }
  }

  /**
   Chunks leave what the whole text at once would leave if and only if no line that is complete before the last
   chunk is refused, or no complete line stands behind the first refused one.
   */
  lemma AsOneChunk(r: Reader, c: Client, chunks: seq<string>)
    requires InBound(r, c, chunks) && NothingComplete(c) && chunks != []
    ensures var whole := Append(c, Concat(chunks));
            AcceptChunks(r, c, chunks) == DrainLines(r, whole)
            <==> !Refuses(r, Append(c, Concat(chunks[..|chunks| - 1]))) || NothingComplete(DrainLines(r, whole))
  {
    var whole, n := Append(c, Concat(chunks)), Stops(r, c, chunks);
    ChunksAreTurns(r, c, chunks);
    RefusalSeen(r, c, chunks[..|chunks| - 1]);
    OneTurn(r, whole);
    if n > 1 { TurnsSettle(r, whole, 1, n); }
  }

  /**
   The cut does matter behind a refused line.  A line of another session and a message, in one chunk, deliver
   nothing and leave the message in the buffer; in two chunks the message is delivered.
   */
  lemma CutMatters(r: Reader, other: string, foreign: Message, m: Message)
    requires Lawful(r.codec) && other != r.session && WellFormed(m) && !m.EventMessage?
    requires Serialize(r.codec, other, foreign).Some? && Serialize(r.codec, r.session, m).Some?
    requires ByteLength(Line(r.codec, other, foreign) + "\n" + (Line(r.codec, r.session, m) + "\n")) <= MAX_BUFFER_BYTES
    ensures var bad, good := Line(r.codec, other, foreign) + "\n", Line(r.codec, r.session, m) + "\n";
            && AcceptChunks(r, FRESH_CLIENT, [bad + good]) == Client(good, 0, [], 1)
            && AcceptChunks(r, FRESH_CLIENT, [bad, good]) == Client("", 0, [m], 1)
  {
    var bad, good := Line(r.codec, other, foreign) + "\n", Line(r.codec, r.session, m) + "\n";
    FewChunks(r, FRESH_CLIENT, bad + good, "");
    FewChunks(r, FRESH_CLIENT, bad, good);
    ForeignThenMore(r, other, foreign, good);
    ForeignAlone(r, other, foreign, good);
    OwnAfterFailure(r, m);
  }

  lemma ForeignAlone(r: Reader, other: string, foreign: Message, more: string)
    requires Lawful(r.codec) && other != r.session
    requires ByteLength(Line(r.codec, other, foreign) + "\n" + more) <= MAX_BUFFER_BYTES
    ensures AcceptChunk(r, FRESH_CLIENT, Line(r.codec, other, foreign) + "\n") == Client("", 0, [], 1)
  {
    var bad := Line(r.codec, other, foreign) + "\n";
    ByteLengthPrefix(bad, bad + more);
    assert bad + "" == bad;
    ForeignThenMore(r, other, foreign, "");
  }

  lemma OwnAfterFailure(r: Reader, m: Message)
    requires Lawful(r.codec) && WellFormed(m) && !m.EventMessage? && Serialize(r.codec, r.session, m).Some?
    ensures AcceptChunk(r, Client("", 0, [], 1), Line(r.codec, r.session, m) + "\n") == Client("", 0, [m], 1)
  {
    var line := Line(r.codec, r.session, m);
    assert "" + (line + "\n") == line + "\n";
    ByteLengthConcat(line, "\n");
    assert ByteLength("\n") == 1 by { assert "\n"[..0] == ""; }
    OwnLine(r, Client("", 0, [], 1), m);
    assert [] + [m] == [m];
  }

  lemma FewChunks(r: Reader, c: Client, x: string, y: string)
    ensures AcceptChunks(r, c, [x]) == AcceptChunk(r, c, x)
    ensures AcceptChunks(r, c, [x, y]) == AcceptChunk(r, AcceptChunk(r, c, x), y)
  {
    assert [x][..0] == [] && [x, y][..1] == [x];
  }

  lemma ForeignThenMore(r: Reader, other: string, foreign: Message, tail: string)
    requires Lawful(r.codec) && other != r.session
    requires ByteLength(Line(r.codec, other, foreign) + "\n" + tail) <= MAX_BUFFER_BYTES
    ensures AcceptChunk(r, FRESH_CLIENT, Line(r.codec, other, foreign) + "\n" + tail) == Client(tail, 0, [], 1)
  {
    var text := Line(r.codec, other, foreign) + "\n" + tail;
    assert "" + text == text;
    ForeignLine(r, FRESH_CLIENT, other, foreign, tail);
  }

  lemma ForeignLine(r: Reader, c: Client, other: string, foreign: Message, tail: string)
    requires Lawful(r.codec) && other != r.session
    ensures DrainLines(r, c.(buffer := Line(r.codec, other, foreign) + "\n" + tail)) == Fail(c.(buffer := tail))
  {
    var line := Line(r.codec, other, foreign);
    FirstLine(r.codec, other, foreign, tail);
    OtherSessionRefused(r.codec, other, r.session, foreign);
    NoNewlineInside(r.codec, other, foreign);
    Associates(line, "\n", tail);
    DrainFirst(r, c.(buffer := line + "\n" + tail), line, tail);
  }

  lemma OwnLine(r: Reader, c: Client, m: Message)
    requires Lawful(r.codec) && WellFormed(m) && !m.EventMessage? && Serialize(r.codec, r.session, m).Some?
    ensures DrainLines(r, c.(buffer := Line(r.codec, r.session, m) + "\n"))
            == c.(buffer := "", delivered := c.delivered + [m])
  {
    var line := Line(r.codec, r.session, m);
    FirstLine(r.codec, r.session, m, "");
    RoundTrip(r.codec, r.session, m);
    NoNewlineInside(r.codec, r.session, m);
    assert line + "\n" == line + (['\n'] + "");
    DrainFirst(r, c.(buffer := line + "\n"), line, "");
    DrainedStays(r, c.(buffer := "", delivered := c.delivered + [m]));
  }

  lemma NoNewlineInside(codec: Codec, session: string, m: Message)
    requires Lawful(codec)
    ensures '\n' !in Line(codec, session, m)
  {
    var record := ToRecord(session, m);
    assert codec.parse(codec.render(record)) == Some(JsonRecord(record));
  }
}
