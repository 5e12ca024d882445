/** What the desktop ever delivers, whatever is written to it (apps/desktop/src/runtime-host-client.ts). */
module DesktopDeliveries {
  import opened Results
  import opened Sequences
  import opened ControlProtocol
  import opened PipeFraming
  import opened DesktopFraming
  import opened PipeEnds

  /** Some line of this session parses to the message. */
  ghost predicate Parsed(r: Reader, m: Message) { exists line :: Parse(r.codec, r.session, line) == Some(m) }

  /** Messages of this session, their events valid and rising up to a number no higher than the last one seen. */
  ghost predicate Sound(r: Reader, c: Client) {
    && (forall i :: 0 <= i < |c.delivered| ==> Parsed(r, c.delivered[i]))
    && AllValid(r, c.delivered)
    && Rising(c.delivered, 0) && LastEvent(c.delivered, 0) <= c.lastEventSequence
  }

  lemma DeliverSound(r: Reader, c: Client, m: Message)
    requires Sound(r, c) && Parsed(r, m) && (m.EventMessage? ==> r.valid(m) && m.sequence > c.lastEventSequence)
    ensures Sound(r, c.(delivered := c.delivered + [m],
                        lastEventSequence := if m.EventMessage? then m.sequence else c.lastEventSequence))
  {
    RisingSnoc(c.delivered, m, 0);
    var more := c.delivered + [m];
    assert forall i :: 0 <= i < |c.delivered| ==> more[i] == c.delivered[i];
    assert more[|c.delivered|] == m;
  }

  /** A message is taken exactly if it is no event, or a valid one numbered above every event seen before. */
  lemma MessageAnswers(r: Reader, c: Client, m: Message)
    ensures var (d, taken) := HandleMessage(r, c, m);
            && (taken <==> (m.EventMessage? ==> m.sequence > c.lastEventSequence && r.valid(m)))
            && d.failures == c.failures + (if taken then 0 else 1)
            && d.delivered == (if taken then c.delivered + [m] else c.delivered)
            && d.buffer == c.buffer
            && d.lastEventSequence
               == if m.EventMessage? && m.sequence > c.lastEventSequence then m.sequence else c.lastEventSequence
  {}

  /** A line is taken exactly if it is empty, or a message of this session that is taken. */
  lemma LineAnswers(r: Reader, c: Client, line: string)
    ensures var (d, taken) := HandleLine(r, c, line);
            && (line == "" ==> taken && d == c)
            && (line != "" && Parse(r.codec, r.session, line) == None ==>
                  !taken && d == c.(failures := c.failures + 1))
            && (line != "" && Parse(r.codec, r.session, line).Some? ==>
                  (d, taken) == HandleMessage(r, c, Parse(r.codec, r.session, line).value))
  {}

  lemma LineSound(r: Reader, c: Client, line: string)
    requires Sound(r, c)
    ensures Sound(r, HandleLine(r, c, line).0)
  {
    LineAnswers(r, c, line);
    var read := Parse(r.codec, r.session, line);
    if line != "" && read.Some? {
      MessageAnswers(r, c, read.value);
      if HandleMessage(r, c, read.value).1 { DeliverSound(r, c, read.value); }
    }
  }

  lemma {:induction false} DrainSound(r: Reader, c: Client)
    requires Sound(r, c)
    ensures Sound(r, DrainLines(r, c))
    decreases |c.buffer|
  {
    var newline := NewlineFrom(c.buffer, 0);
    if newline.Some? {
      var line, tail := c.buffer[..newline.value], c.buffer[newline.value + 1..];
      CutAround(c.buffer, newline.value);
      DrainFirst(r, c, line, tail);
      HandleLineIgnoresBuffer(r, c.(buffer := tail), Chomp(line), "");
      BufferImmaterial(r, c, tail);
      LineSound(r, c.(buffer := tail), Chomp(line));
      var (next, taken) := HandleLine(r, c.(buffer := tail), Chomp(line));
      if taken { DrainSound(r, next); }
    }
  }

  lemma BufferImmaterial(r: Reader, c: Client, text: string)
    requires Sound(r, c)
    ensures Sound(r, c.(buffer := text)) && Sound(r, c.(failures := c.failures + 1))
  {}

  lemma ChunkSound(r: Reader, c: Client, chunk: string)
    requires Sound(r, c)
    ensures Sound(r, AcceptChunk(r, c, chunk))
  {
    BufferImmaterial(r, c, c.buffer + chunk);
    var more := Append(c, chunk);
    BufferImmaterial(r, more, more.buffer);
    DrainSound(r, more);
  }

  /**
   Whatever is written to the desktop, in whatever chunks: what it delivers are messages of its own session, every event
   among them valid and numbered above the one before.
   */
  lemma {:induction false} DeliveriesSound(r: Reader, chunks: seq<string>)
    ensures Sound(r, AcceptChunks(r, FRESH_CLIENT, chunks))
  {
    if chunks != [] {
      DeliveriesSound(r, chunks[..|chunks| - 1]);
      ChunkSound(r, AcceptChunks(r, FRESH_CLIENT, chunks[..|chunks| - 1]), chunks[|chunks| - 1]);
    }
  }

  /** A chunk over the bound is not read, and reported. */
  lemma OverBoundUnread(r: Reader, c: Client, chunk: string)
    requires ByteLength(c.buffer + chunk) > 2097152
    ensures AcceptChunk(r, c, chunk) == c.(buffer := c.buffer + chunk, failures := c.failures + 1)
  {}
}
